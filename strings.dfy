/**
 * Text helpers shared by every module: Python's `str.lower`, `in`,
 * `startswith`/`endswith`, `[:n]`, `replace`, `split` and `strip`, restricted
 * to what the dashboard and its scripts use.
 */
module Strings {
  datatype Option<T> = None | Some(value: T)

  /** Python's `str.lower` on ASCII letters and the German capitals Ä, Ö, Ü. */
  function LowerChar(c: char): char
  {
    if 'A' <= c <= 'Z' then (c as int + 32) as char
    else if c == 'Ä' then 'ä'
    else if c == 'Ö' then 'ö'
    else if c == 'Ü' then 'ü'
    else c
  }

  function Lower(s: string): (r: string)
    ensures |r| == |s|
    ensures forall i :: 0 <= i < |s| ==> r[i] == LowerChar(s[i])
  {
    if s == [] then [] else [LowerChar(s[0])] + Lower(s[1..])
  }

  /** Python's `str.upper` on ASCII letters and the German letters ä, ö, ü. */
  function UpperChar(c: char): char
  {
    if 'a' <= c <= 'z' then (c as int - 32) as char
    else if c == 'ä' then 'Ä'
    else if c == 'ö' then 'Ö'
    else if c == 'ü' then 'Ü'
    else c
  }

  function Upper(s: string): (r: string)
    ensures |r| == |s|
    ensures forall i :: 0 <= i < |s| ==> r[i] == UpperChar(s[i])
  {
    if s == [] then [] else [UpperChar(s[0])] + Upper(s[1..])
  }

  predicate StartsWith(s: string, p: string)
  {
    |p| <= |s| && s[..|p|] == p
  }

  predicate EndsWith(s: string, p: string)
  {
    |p| <= |s| && s[|s| - |p|..] == p
  }

  /** Python's `sub in s`. */
  predicate Contains(s: string, sub: string)
  {
    StartsWith(s, sub) || (|s| > 0 && Contains(s[1..], sub))
  }

  /** `any(k in s for k in keys)`. */
  predicate ContainsAny(s: string, keys: seq<string>)
  {
    exists k :: k in keys && Contains(s, k)
  }

  lemma {:induction false} NotContainsWhenHeadAbsent(s: string, sub: string)
    requires |sub| > 0 && sub[0] !in s
    ensures !Contains(s, sub)
  {
    if |s| > 0 {
      assert sub[0] !in s[1..] by {
        assert forall i :: 0 <= i < |s[1..]| ==> s[1..][i] == s[i + 1];
      }
      NotContainsWhenHeadAbsent(s[1..], sub);
    }
  }

  lemma {:induction false} ContainsAt(s: string, sub: string, i: nat)
    requires i + |sub| <= |s| && s[i..i + |sub|] == sub
    ensures Contains(s, sub)
  {
    if i > 0 {
      assert s[1..][i - 1..i - 1 + |sub|] == s[i..i + |sub|];
      ContainsAt(s[1..], sub, i - 1);
    }
  }

  lemma {:induction false} ContainsPrefixOf(s: string, sub: string, pre: string)
    requires Contains(s, sub) && StartsWith(sub, pre)
    ensures Contains(s, pre)
  {
    if StartsWith(s, sub) {
      assert s[..|pre|] == sub[..|pre|];
    } else {
      ContainsPrefixOf(s[1..], sub, pre);
    }
  }

  /** Python's `s[:n]` for a non-negative `n`. */
  function Take<T>(s: seq<T>, n: nat): (r: seq<T>)
    ensures |r| == if |s| <= n then |s| else n
    ensures r == s[..|r|]
  {
    if |s| <= n then s else s[..n]
  }

  /** `s.replace(a, b)` for single characters. */
  function ReplaceChar(s: string, a: char, b: char): (r: string)
    ensures |r| == |s|
    ensures forall i :: 0 <= i < |s| ==> r[i] == (if s[i] == a then b else s[i])
  {
    if s == [] then [] else [if s[0] == a then b else s[0]] + ReplaceChar(s[1..], a, b)
  }

  /** How often `x` occurs in `s`, as `s.count(x)`. */
  function Count(s: string, x: char): (n: nat)
    ensures n <= |s|
    ensures n == 0 <==> x !in s
  {
    if s == [] then 0 else Count(s[1..], x) + (if s[0] == x then 1 else 0)
  }

  /** Replacing moves every `a` to `b` and keeps every other character. */
  lemma {:induction false} ReplaceCharCount(s: string, a: char, b: char, x: char)
    requires a != b
    ensures Count(ReplaceChar(s, a, b), x) ==
      if x == a then 0 else if x == b then Count(s, b) + Count(s, a) else Count(s, x)
  {
    if s != [] {
      ReplaceCharCount(s[1..], a, b, x);
      assert ReplaceChar(s, a, b)[1..] == ReplaceChar(s[1..], a, b);
    }
  }

  /** Replacing works piece by piece. */
  lemma ReplaceCharAppend(x: string, y: string, a: char, b: char)
    ensures ReplaceChar(x + y, a, b) == ReplaceChar(x, a, b) + ReplaceChar(y, a, b)
  {
    assert forall i :: 0 <= i < |x + y| ==> ReplaceChar(x + y, a, b)[i] == (ReplaceChar(x, a, b) + ReplaceChar(y, a, b))[i];
  }

  /** `s.replace(c, '')`. */
  function RemoveChar(s: string, c: char): (r: string)
    ensures c !in r
    ensures forall x :: x in r ==> x in s
    ensures |r| <= |s|
    ensures c !in s ==> r == s
  {
    if s == [] then []
    else if s[0] == c then RemoveChar(s[1..], c)
    else [s[0]] + RemoveChar(s[1..], c)
  }

  /** Removal keeps every other character, as often as it occurs. */
  lemma {:induction false} RemoveCharCount(s: string, c: char, x: char)
    ensures Count(RemoveChar(s, c), x) == if x == c then 0 else Count(s, x)
  {
    if s != [] {
      RemoveCharCount(s[1..], c, x);
      if s[0] != c {
        assert RemoveChar(s, c)[1..] == RemoveChar(s[1..], c);
      }
    }
  }

  /** Removal works piece by piece, so the kept characters stay in their order. */
  lemma {:induction false} RemoveCharAppend(a: string, b: string, c: char)
    ensures RemoveChar(a + b, c) == RemoveChar(a, c) + RemoveChar(b, c)
  {
    if a != [] {
      assert (a + b)[1..] == a[1..] + b;
      RemoveCharAppend(a[1..], b, c);
    } else {
      assert a + b == b;
    }
  }

  /** `s.replace(pat, rep)`: leftmost, non-overlapping occurrences. */
  function ReplaceAll(s: string, pat: string, rep: string): (r: string)
    requires |pat| > 0
    ensures !Contains(s, pat) ==> r == s
    decreases |s|
  {
    if |s| < |pat| then s
    else if s[..|pat|] == pat then rep + ReplaceAll(s[|pat|..], pat, rep)
    else [s[0]] + ReplaceAll(s[1..], pat, rep)
  }

  /**
   * At the first occurrence of `pat`: the text before it is kept, the
   * occurrence becomes `rep`, and replacing goes on after it, so occurrences
   * are replaced from the left and never overlap.
   */
  lemma {:induction false} ReplaceAllAt(s: string, pat: string, rep: string, i: nat)
    requires |pat| > 0 && OccursAt(s, pat, i)
    requires forall j :: 0 <= j < i ==> !OccursAt(s, pat, j)
    ensures ReplaceAll(s, pat, rep) == s[..i] + rep + ReplaceAll(s[i + |pat|..], pat, rep)
    decreases i
  {
    if i == 0 {
      assert s[..|pat|] == pat;
      assert s[..0] + rep == rep;
    } else {
      var t := s[1..];
      ReplaceAllStep(s, pat, rep);
      OccursShift(s, pat, i);
      ReplaceAllAt(t, pat, rep, i - 1);
      SliceAfterHead(s, i + |pat|);
      SlicePrefixHead(s, i);
      ConsAssociates(s[0], t[..i - 1], rep, ReplaceAll(s[i + |pat|..], pat, rep));
    }
  }

  /** Where no occurrence starts, the first character is kept. */
  lemma ReplaceAllStep(s: string, pat: string, rep: string)
    requires |pat| > 0 && |pat| < |s| && !OccursAt(s, pat, 0)
    ensures ReplaceAll(s, pat, rep) == [s[0]] + ReplaceAll(s[1..], pat, rep)
  {
    assert s[..|pat|] != pat;
  }

  lemma SliceAfterHead(s: string, k: nat)
    requires 0 < k <= |s|
    ensures s[1..][k - 1..] == s[k..]
  {
  }

  lemma SliceRangeAfterHead(s: string, k: nat, m: nat)
    requires 0 < k <= m <= |s|
    ensures s[1..][k - 1..m - 1] == s[k..m]
  {
  }

  lemma SlicePrefixHead(s: string, k: nat)
    requires 0 < k <= |s|
    ensures s[..k] == [s[0]] + s[1..][..k - 1]
  {
  }

  lemma ConsAssociates(x: char, a: string, b: string, c: string)
    ensures [x] + (a + b + c) == [x] + a + b + c
  {
  }

  /** Occurrences in `s[1..]` are those in `s`, one place earlier. */
  lemma OccursShift(s: string, pat: string, i: nat)
    requires 0 < i && OccursAt(s, pat, i)
    requires forall j :: 0 <= j < i ==> !OccursAt(s, pat, j)
    ensures OccursAt(s[1..], pat, i - 1)
    ensures forall j :: 0 <= j < i - 1 ==> !OccursAt(s[1..], pat, j)
  {
    var t := s[1..];
    assert t[i - 1..i - 1 + |pat|] == s[i..i + |pat|];
    forall j | 0 <= j < i - 1
      ensures !OccursAt(t, pat, j)
    {
      assert !OccursAt(s, pat, j + 1);
      if j + |pat| <= |t| {
        SliceRangeAfterHead(s, j + 1, j + 1 + |pat|);
      }
    }
  }

  /** `sep.join(parts)`. */
  function Join(parts: seq<string>, sep: string): string
  {
    if parts == [] then ""
    else if |parts| == 1 then parts[0]
    else parts[0] + sep + Join(parts[1..], sep)
  }

  /**
   * Whitespace as Python's `str.isspace()` sees it, which is what `str.split()`
   * and the `\s` of `re` on text use: the ASCII blanks, the separators
   * U+001C-U+001F, NEL, NO-BREAK SPACE, and the Unicode space and line
   * separators U+1680, U+2000-U+200A, U+2028, U+2029, U+202F, U+205F, U+3000.
   */
  predicate IsSpace(c: char)
  {
    || c == ' ' || c == '\t' || c == '\n' || c == '\r' || c == '\U{B}' || c == '\U{C}'
    || '\U{1C}' <= c <= '\U{1F}'
    || c == '\U{85}' || c == '\U{A0}' || c == '\U{1680}'
    || '\U{2000}' <= c <= '\U{200A}'
    || c == '\U{2028}' || c == '\U{2029}' || c == '\U{202F}' || c == '\U{205F}' || c == '\U{3000}'
  }

  predicate IsDigit(c: char)
  {
    '0' <= c <= '9'
  }

  /** The number of runs of ten Unicode decimal digits (category Nd, Unicode 15.0). */
  const DecimalRuns := 68

  /**
   * The code point of the digit zero of run `k`, the runs in ascending
   * order. These are the characters `\d` matches in a `str` pattern and
   * `int()` reads, each run counting 0 to 9.
   */
  function RunZero(k: nat): int
    requires k < DecimalRuns
  {
    if k == 0 then 0x30
    else if k == 1 then 0x660
    else if k == 2 then 0x6F0
    else if k == 3 then 0x7C0
    else if k == 4 then 0x966
    else if k == 5 then 0x9E6
    else if k == 6 then 0xA66
    else if k == 7 then 0xAE6
    else if k == 8 then 0xB66
    else if k == 9 then 0xBE6
    else if k == 10 then 0xC66
    else if k == 11 then 0xCE6
    else if k == 12 then 0xD66
    else if k == 13 then 0xDE6
    else if k == 14 then 0xE50
    else if k == 15 then 0xED0
    else if k == 16 then 0xF20
    else if k == 17 then 0x1040
    else if k == 18 then 0x1090
    else if k == 19 then 0x17E0
    else if k == 20 then 0x1810
    else if k == 21 then 0x1946
    else if k == 22 then 0x19D0
    else if k == 23 then 0x1A80
    else if k == 24 then 0x1A90
    else if k == 25 then 0x1B50
    else if k == 26 then 0x1BB0
    else if k == 27 then 0x1C40
    else if k == 28 then 0x1C50
    else if k == 29 then 0xA620
    else if k == 30 then 0xA8D0
    else if k == 31 then 0xA900
    else if k == 32 then 0xA9D0
    else if k == 33 then 0xA9F0
    else if k == 34 then 0xAA50
    else if k == 35 then 0xABF0
    else if k == 36 then 0xFF10
    else if k == 37 then 0x104A0
    else if k == 38 then 0x10D30
    else if k == 39 then 0x11066
    else if k == 40 then 0x110F0
    else if k == 41 then 0x11136
    else if k == 42 then 0x111D0
    else if k == 43 then 0x112F0
    else if k == 44 then 0x11450
    else if k == 45 then 0x114D0
    else if k == 46 then 0x11650
    else if k == 47 then 0x116C0
    else if k == 48 then 0x11730
    else if k == 49 then 0x118E0
    else if k == 50 then 0x11950
    else if k == 51 then 0x11C50
    else if k == 52 then 0x11D50
    else if k == 53 then 0x11DA0
    else if k == 54 then 0x11F50
    else if k == 55 then 0x16A60
    else if k == 56 then 0x16AC0
    else if k == 57 then 0x16B50
    else if k == 58 then 0x1D7CE
    else if k == 59 then 0x1D7D8
    else if k == 60 then 0x1D7E2
    else if k == 61 then 0x1D7EC
    else if k == 62 then 0x1D7F6
    else if k == 63 then 0x1E140
    else if k == 64 then 0x1E2F0
    else if k == 65 then 0x1E4F0
    else if k == 66 then 0x1E950
    else 0x1FBF0
  }

  /**
   * The zero of the run among runs `k` onwards that holds `c`, or -1.
   * The runs ascend, so the search stops at the first run above `c`.
   */
  function DecimalZeroFrom(c: char, k: nat): (z: int)
    requires k <= DecimalRuns
    ensures z == -1 || z <= c as int < z + 10
    decreases DecimalRuns - k
  {
    if k == DecimalRuns || c as int < RunZero(k) then -1
    else if c as int < RunZero(k) + 10 then RunZero(k)
    else DecimalZeroFrom(c, k + 1)
  }

  /**
   * The code point of the digit zero of the run of decimal digits that
   * holds `c`, or -1 when `c` is no decimal digit. The only ASCII run is
   * '0' to '9'.
   */
  function DecimalZero(c: char): (z: int)
    ensures z == -1 || z <= c as int < z + 10
    ensures '0' <= c <= '9' ==> z == '0' as int
    ensures c as int < 0x80 && !('0' <= c <= '9') ==> z == -1
  {
    if c < '\U{80}' then (if '0' <= c <= '9' then '0' as int else -1)
    else DecimalZeroFrom(c, 1)
  }

  /** Python's `c.isdecimal()`: a Unicode decimal digit. */
  predicate IsDecimal(c: char)
  {
    DecimalZero(c) >= 0
  }

  /** No decimal digit is whitespace: `\s` and `\d` never match the same character. */
  lemma DecimalIsNoSpace(c: char)
    requires IsDecimal(c)
    ensures !IsSpace(c)
  {
    if IsSpace(c) && c >= '\U{80}' {
      SpaceInNoRun(c, 1);
    }
  }

  lemma {:induction false} SpaceInNoRun(c: char, k: nat)
    requires IsSpace(c) && 1 <= k <= DecimalRuns
    ensures DecimalZeroFrom(c, k) == -1
    decreases DecimalRuns - k
  {
    if k < DecimalRuns && c as int >= RunZero(k) {
      SpaceInNoRun(c, k + 1);
    }
  }

  /** The digit value `int()` gives a decimal digit; 0 for any other character. */
  function DecimalValue(c: char): (v: int)
    ensures 0 <= v < 10
    ensures '0' <= c <= '9' ==> v == c as int - '0' as int
  {
    if IsDecimal(c) then c as int - DecimalZero(c) else 0
  }

  /**
   * Python's `c.isdigit()`: a decimal digit, or one of the 128 characters
   * that carry a digit value without being decimal digits (superscripts and
   * subscripts, circled and parenthesised digits, Ethiopic, Kharoshthi,
   * Rumi and Brahmi digits, digits with a full stop or comma). `int()`
   * rejects those.
   */
  predicate IsDigitLike(c: char)
  {
    || IsDecimal(c)
    || '\U{B2}' <= c <= '\U{B3}'
    || c == '\U{B9}'
    || '\U{1369}' <= c <= '\U{1371}'
    || c == '\U{19DA}'
    || c == '\U{2070}'
    || '\U{2074}' <= c <= '\U{2079}'
    || '\U{2080}' <= c <= '\U{2089}'
    || '\U{2460}' <= c <= '\U{2468}'
    || '\U{2474}' <= c <= '\U{247C}'
    || '\U{2488}' <= c <= '\U{2490}'
    || c == '\U{24EA}'
    || '\U{24F5}' <= c <= '\U{24FD}'
    || c == '\U{24FF}'
    || '\U{2776}' <= c <= '\U{277E}'
    || '\U{2780}' <= c <= '\U{2788}'
    || '\U{278A}' <= c <= '\U{2792}'
    || '\U{10A40}' <= c <= '\U{10A43}'
    || '\U{10E60}' <= c <= '\U{10E68}'
    || '\U{11052}' <= c <= '\U{1105A}'
    || '\U{1F100}' <= c <= '\U{1F10A}'
  }

  /** Length of the leading run of characters that are not whitespace. */
  function TokenLength(s: string): (n: nat)
    ensures n <= |s|
    ensures forall i :: 0 <= i < n ==> !IsSpace(s[i])
    ensures n < |s| ==> IsSpace(s[n])
  {
    if s == [] || IsSpace(s[0]) then 0 else 1 + TokenLength(s[1..])
  }

  /** Python's `s.split()`: the maximal runs of non-whitespace characters. */
  function Words(s: string): (ws: seq<string>)
    ensures forall k :: 0 <= k < |ws| ==> |ws[k]| > 0 && forall i :: 0 <= i < |ws[k]| ==> !IsSpace(ws[k][i])
    ensures forall k, i :: 0 <= k < |ws| && 0 <= i < |ws[k]| ==> ws[k][i] in s
    decreases |s|
  {
    if s == [] then []
    else if IsSpace(s[0]) then Words(s[1..])
    else
      var n := TokenLength(s);
      [s[..n]] + Words(s[n..])
  }

  /** Length of the leading run of whitespace. */
  function SpaceRun(s: string): (n: nat)
    ensures n <= |s|
    ensures forall i :: 0 <= i < n ==> IsSpace(s[i])
    ensures n < |s| ==> !IsSpace(s[n])
  {
    if s == [] || !IsSpace(s[0]) then 0 else 1 + SpaceRun(s[1..])
  }

  /** The leading token is fixed by where the first whitespace is. */
  lemma TokenLengthUnique(s: string, n: nat)
    requires n <= |s|
    requires forall i :: 0 <= i < n ==> !IsSpace(s[i])
    requires n < |s| ==> IsSpace(s[n])
    ensures TokenLength(s) == n
  {
  }

  /** Splitting at a whitespace character splits the words. */
  lemma WordsSpaceAppend(a: string, sp: char, b: string)
    requires IsSpace(sp)
    ensures Words(a + [sp] + b) == Words(a) + Words(b)
  {
    WordsBeforeSpace(a, [sp] + b);
    assert a + [sp] + b == a + ([sp] + b) && ([sp] + b)[1..] == b;
  }

  /** The words of `a` followed by a text that starts with whitespace. */
  lemma {:induction false} WordsBeforeSpace(a: string, rest: string)
    requires rest != [] && IsSpace(rest[0])
    ensures Words(a + rest) == Words(a) + Words(rest[1..])
    decreases |a|
  {
    if a == [] {
      assert a + rest == rest;
      WordsSkipSpace(rest);
    } else if IsSpace(a[0]) {
      WordsBeforeSpace(a[1..], rest);
      WordsSkipSpaceBefore(a, rest);
      WordsSkipSpace(a);
    } else {
      var m := TokenLength(a);
      WordsBeforeSpace(a[m..], rest);
      WordsTokenBeforeSpace(a, rest);
      WordsTakeToken(a);
      WordAssociates(a[..m], Words(a[m..]), Words(rest[1..]));
    }
  }

  /** Leading whitespace separates no word, whatever follows. */
  lemma WordsSkipSpaceBefore(a: string, rest: string)
    requires a != [] && IsSpace(a[0])
    ensures Words(a + rest) == Words(a[1..] + rest)
  {
    WordsSkipSpace(a + rest);
    assert (a + rest)[1..] == a[1..] + rest;
  }

  lemma WordAssociates(w: string, x: seq<string>, y: seq<string>)
    ensures [w] + (x + y) == [w] + x + y
  {
  }

  /** A first word of `a` also ends the first word of `a` followed by a text starting with whitespace. */
  lemma WordsTokenBeforeSpace(a: string, rest: string)
    requires a != [] && !IsSpace(a[0])
    requires rest != [] && IsSpace(rest[0])
    ensures Words(a + rest) == [a[..TokenLength(a)]] + Words(a[TokenLength(a)..] + rest)
  {
    var t := a + rest;
    var m := TokenLength(a);
    assert m < |t| ==> IsSpace(t[m]) by {
      if m < |a| { assert t[m] == a[m]; } else { assert t[m] == rest[0]; }
    }
    TokenLengthUnique(t, m);
    AppendSlices(a, rest, m);
    WordsTakeToken(t);
  }

  /** A text starting with a non-space character: its first word, then the words of the rest. */
  lemma WordsTakeToken(s: string)
    requires s != [] && !IsSpace(s[0])
    ensures Words(s) == [s[..TokenLength(s)]] + Words(s[TokenLength(s)..])
  {
  }

  lemma AppendSlices(a: string, x: string, m: nat)
    requires m <= |a|
    ensures (a + x)[..m] == a[..m] && (a + x)[m..] == a[m..] + x
  {
  }

  /** A non-empty text without whitespace is one word. */
  lemma WordsOfWord(w: string)
    requires |w| > 0 && forall i :: 0 <= i < |w| ==> !IsSpace(w[i])
    ensures Words(w) == [w]
  {
    TokenLengthUnique(w, |w|);
    assert w[..|w|] == w;
    assert w[|w|..] == [];
  }

  /** The first word starts after the leading whitespace and runs to the next whitespace. */
  lemma WordsHead(s: string)
    requires SpaceRun(s) < |s|
    ensures var r := s[SpaceRun(s)..];
      Words(s) != [] && Words(s)[0] == r[..TokenLength(r)]
  {
    WordsSkipRun(s);
    WordsTakeToken(s[SpaceRun(s)..]);
  }

  /** Leading whitespace does not change the words. */
  lemma {:induction false} WordsSkipRun(s: string)
    ensures Words(s) == Words(s[SpaceRun(s)..])
    decreases |s|
  {
    if s != [] && IsSpace(s[0]) {
      WordsSkipSpace(s);
      WordsSkipRun(s[1..]);
      assert SpaceRun(s[1..]) == SpaceRun(s) - 1;
      SliceAfterHead(s, SpaceRun(s));
    } else {
      assert s[0..] == s;
    }
  }

  /** Leading whitespace separates no word. */
  lemma WordsSkipSpace(s: string)
    requires s != [] && IsSpace(s[0])
    ensures Words(s) == Words(s[1..])
  {
  }

  /**
   * `split()` breaks at every Unicode whitespace character, not only the ASCII
   * blanks: a lone NO-BREAK SPACE gives no word, and FILE SEPARATOR (U+001C)
   * separates two words.
   */
  lemma WordsBreakAtUnicodeSpace()
    ensures Words("\U{A0}") == []
    ensures Words("a\U{1C}b") == ["a", "b"]
  {
    WordsSpaceAppend("a", '\U{1C}', "b");
    WordsOfWord("a");
    WordsOfWord("b");
    assert "a" + ['\U{1C}'] + "b" == "a\U{1C}b";
  }

  lemma {:induction false} WordsEmptyIffBlank(s: string)
    ensures Words(s) == [] <==> forall i :: 0 <= i < |s| ==> IsSpace(s[i])
    decreases |s|
  {
    if s != [] && IsSpace(s[0]) {
      WordsEmptyIffBlank(s[1..]);
      assert forall i :: 0 < i < |s| ==> s[i] == s[1..][i - 1];
    }
  }

  /** `sub` occurs in `s` starting at index `j`. */
  predicate OccursAt(s: string, sub: string, j: int)
  {
    0 <= j && j + |sub| <= |s| && s[j..j + |sub|] == sub
  }

  /** Index of the first occurrence of `sub` in `s`, as `s.find(sub)` when it is not -1. */
  function IndexOf(s: string, sub: string): (r: Option<nat>)
    ensures r.Some? ==> OccursAt(s, sub, r.value)
    ensures r.Some? ==> forall j :: 0 <= j < r.value ==> !OccursAt(s, sub, j)
    ensures r.None? ==> forall j :: !OccursAt(s, sub, j)
    decreases |s|
  {
    if |s| < |sub| then None
    else if s[..|sub|] == sub then Some(0)
    else
      assert forall j :: 1 <= j ==> OccursAt(s, sub, j) == OccursAt(s[1..], sub, j - 1) by {
        forall j | 1 <= j ensures OccursAt(s, sub, j) == OccursAt(s[1..], sub, j - 1) {
          if j + |sub| <= |s| {
            var a, b := s[1..][j - 1..j - 1 + |sub|], s[j..j + |sub|];
            assert forall k :: 0 <= k < |sub| ==> a[k] == b[k];
            assert a == b;
          }
        }
      }
      match IndexOf(s[1..], sub)
      case None => None
      case Some(i) => Some(i + 1)
  }

  /** `sub in s` means `s.find(sub)` finds it. */
  lemma {:induction false} ContainsFound(s: string, sub: string)
    requires Contains(s, sub)
    ensures IndexOf(s, sub).Some?
    decreases |s|
  {
    if StartsWith(s, sub) {
      assert OccursAt(s, sub, 0);
    } else {
      ContainsFound(s[1..], sub);
      var j := IndexOf(s[1..], sub).value;
      assert s[1..][j..j + |sub|] == s[j + 1..j + 1 + |sub|];
      assert OccursAt(s, sub, j + 1);
    }
  }

  /** Python's `s.split(sep)` for a non-empty separator. */
  function SplitOn(s: string, sep: string): (parts: seq<string>)
    requires |sep| > 0
    ensures |parts| >= 1
    ensures IndexOf(s, sep).None? <==> parts == [s]
    ensures IndexOf(s, sep).Some? ==> parts[0] == s[..IndexOf(s, sep).value]
    decreases |s|
  {
    match IndexOf(s, sep)
    case None => [s]
    case Some(i) => [s[..i]] + SplitOn(s[i + |sep|..], sep)
  }

  /** Joining the parts of a split with the separator gives the text back, and no part holds the separator. */
  lemma {:induction false} SplitOnJoin(s: string, sep: string)
    requires |sep| > 0
    ensures Join(SplitOn(s, sep), sep) == s
    decreases |s|
  {
    match IndexOf(s, sep)
    case None =>
    case Some(i) =>
      var rest := s[i + |sep|..];
      var parts := SplitOn(s, sep);
      assert parts[1..] == SplitOn(rest, sep);
      SplitOnJoin(rest, sep);
      assert s == s[..i] + sep + rest;
  }

  /** No part of a split holds the separator. */
  lemma {:induction false} SplitOnPartsFree(s: string, sep: string)
    requires |sep| > 0
    ensures forall k :: 0 <= k < |SplitOn(s, sep)| ==> !Contains(SplitOn(s, sep)[k], sep)
    decreases |s|
  {
    match IndexOf(s, sep)
    case None =>
      NotFoundNotContained(s, sep);
    case Some(i) =>
      var rest := s[i + |sep|..];
      var parts := SplitOn(s, sep);
      assert parts[1..] == SplitOn(rest, sep);
      SplitOnPartsFree(rest, sep);
      BeforeFirstFree(s, sep);
      forall k | 1 <= k < |parts|
        ensures !Contains(parts[k], sep)
      {
        assert parts[k] == SplitOn(rest, sep)[k - 1];
      }
  }

  /** Text in which `sub` is not found does not contain it. */
  lemma NotFoundNotContained(s: string, sub: string)
    requires IndexOf(s, sub).None?
    ensures !Contains(s, sub)
  {
    if Contains(s, sub) {
      ContainsFound(s, sub);
    }
  }

  /** The text before the first occurrence does not contain `sub`. */
  lemma BeforeFirstFree(s: string, sub: string)
    requires |sub| > 0 && IndexOf(s, sub).Some?
    ensures !Contains(s[..IndexOf(s, sub).value], sub)
  {
    var i := IndexOf(s, sub).value;
    if Contains(s[..i], sub) {
      ContainsFound(s[..i], sub);
      var j := IndexOf(s[..i], sub).value;
      assert OccursAt(s[..i], sub, j);
      assert j + |sub| <= i;
      assert s[..i][j..j + |sub|] == s[j..j + |sub|];
      assert OccursAt(s, sub, j);
      assert false;
    }
  }

  /** The first part of a split runs from the start up to the first separator, or to the end. */
  lemma SplitOnFirst(s: string, sep: string)
    requires |sep| > 0
    ensures var seg := SplitOn(s, sep)[0];
      |seg| <= |s| && seg == s[..|seg|] && (|seg| == |s| || OccursAt(s, sep, |seg|))
  {
  }

  /** A text with exactly one separator character splits into the text before it and the text after it. */
  lemma SplitOnOnce(a: string, c: char, b: string)
    requires c !in a && c !in b
    ensures SplitOn(a + [c] + b, [c]) == [a, b]
  {
    var h := a + [c] + b;
    FoundAfterAbsent(a, c, b);
    assert h[..|a|] == a && h[|a| + 1..] == b;
    NotFoundWhenAbsent(b, c);
  }

  /** A character is found where it first occurs. */
  lemma {:induction false} FoundAfterAbsent(a: string, c: char, rest: string)
    requires c !in a
    ensures IndexOf(a + [c] + rest, [c]) == Some(|a|)
    decreases |a|
  {
    var h := a + [c] + rest;
    if a == [] {
      assert h[..1] == [c];
    } else {
      assert h[..1] == [a[0]];
      assert h[1..] == a[1..] + [c] + rest;
      assert c !in a[1..];
      FoundAfterAbsent(a[1..], c, rest);
    }
  }

  /** A character that does not occur is not found. */
  lemma {:induction false} NotFoundWhenAbsent(s: string, c: char)
    requires c !in s
    ensures IndexOf(s, [c]).None?
    decreases |s|
  {
    if |s| > 0 {
      assert s[..1] == [s[0]];
      assert c !in s[1..];
      NotFoundWhenAbsent(s[1..], c);
    }
  }

  /** A split with a separator found: the text before it, then the split of the rest. */
  lemma SplitOnStep(s: string, sep: string)
    requires |sep| > 0 && IndexOf(s, sep).Some?
    ensures var i := IndexOf(s, sep).value;
      SplitOn(s, sep) == [s[..i]] + SplitOn(s[i + |sep|..], sep)
  {
  }

  /** The second part of a split is the text after the first separator, up to the next one. */
  lemma SplitOnSecond(s: string, sep: string)
    requires |sep| > 0 && IndexOf(s, sep).Some?
    ensures |SplitOn(s, sep)| >= 2
    ensures var i, seg := IndexOf(s, sep).value, SplitOn(s, sep)[1];
      i + |sep| + |seg| <= |s| && forall k :: 0 <= k < |seg| ==> seg[k] == s[i + |sep| + k]
  {
    var i := IndexOf(s, sep).value;
    var rest := s[i + |sep|..];
    SplitOnStep(s, sep);
    var seg := SplitOn(rest, sep)[0];
    SplitOnFirst(rest, sep);
    assert forall k :: 0 <= k < |seg| ==> seg[k] == rest[k];
  }

  /** Length of the leading run of `c`. */
  function LeadingRun(s: string, c: char): (n: nat)
    ensures n <= |s|
    ensures forall k :: 0 <= k < n ==> s[k] == c
    ensures n < |s| ==> s[n] != c
  {
    if s == [] || s[0] != c then 0 else 1 + LeadingRun(s[1..], c)
  }

  /** Length of the trailing run of `c`. */
  function TrailingRun(s: string, c: char): (n: nat)
    ensures n <= |s|
    ensures forall k :: |s| - n <= k < |s| ==> s[k] == c
    ensures n < |s| ==> s[|s| - 1 - n] != c
  {
    if s == [] || s[|s| - 1] != c then 0 else 1 + TrailingRun(s[..|s| - 1], c)
  }

  /** Python's `s.strip(c)` for one character `c`: the leading and then the trailing run of `c` go. */
  function StripChar(s: string, c: char): (r: string)
    ensures |r| <= |s|
    ensures |r| > 0 ==> r[0] != c && r[|r| - 1] != c
    ensures forall x :: x in r ==> x in s
    ensures var t := s[LeadingRun(s, c)..]; r == t[..|t| - TrailingRun(t, c)]
  {
    if s == [] then []
    else if s[0] == c then
      StripLeadingStep(s, c);
      StripChar(s[1..], c)
    else if s[|s| - 1] == c then
      StripTrailingStep(s, c);
      StripChar(s[..|s| - 1], c)
    else
      assert s[0..] == s;
      s
  }

  /** A leading `c` is part of the leading run. */
  lemma StripLeadingStep(s: string, c: char)
    requires s != [] && s[0] == c
    ensures s[LeadingRun(s, c)..] == s[1..][LeadingRun(s[1..], c)..]
  {
  }

  /** Without a leading `c`, a trailing `c` is part of the trailing run. */
  lemma StripTrailingStep(s: string, c: char)
    requires s != [] && s[0] != c && s[|s| - 1] == c
    ensures var u := s[..|s| - 1];
      var t, tu := s[LeadingRun(s, c)..], u[LeadingRun(u, c)..];
      t[..|t| - TrailingRun(t, c)] == tu[..|tu| - TrailingRun(tu, c)]
  {
    var u := s[..|s| - 1];
    assert s[0..] == s;
    if u != [] {
      assert u[0] == s[0];
    }
    assert u[0..] == u;
    assert TrailingRun(s, c) == 1 + TrailingRun(u, c);
  }

  /** The number a string of decimal digits denotes, as `int(r)` reads it. */
  function DigitsValue(r: string): int
  {
    if r == [] then 0 else DigitsValue(r[..|r| - 1]) * 10 + (r[|r| - 1] as int - '0' as int)
  }

  /** Decimal digits of a natural number, without padding, as `str(n)`. */
  function NatToString(n: nat): (r: string)
    ensures |r| > 0
    ensures forall i :: 0 <= i < |r| ==> IsDigit(r[i])
    ensures DigitsValue(r) == n
    ensures r[0] == '0' <==> n == 0
    ensures |r| == 1 <==> n < 10
    decreases n
  {
    if n < 10 then
      var r := [('0' as int + n) as char];
      assert r[..0] == [];
      r
    else
      var r := NatToString(n / 10) + [('0' as int + n % 10) as char];
      assert r[..|r| - 1] == NatToString(n / 10);
      r
  }
}
