/**
 * String operations of Python's `str` and JavaScript's `String` that the
 * system relies on, over `seq<char>`. Case mapping and whitespace are the
 * ASCII subsets of the Unicode rules the two runtimes apply.
 */
module Text {
  import opened Wrappers

  predicate StartsWith(s: string, p: string) {
    |p| <= |s| && s[..|p|] == p
  }

  predicate EndsWith(s: string, p: string) {
    |p| <= |s| && s[|s| - |p|..] == p
  }

  /** `t in s` (Python) / `s.includes(t)` (JavaScript): `t` occurs at some position of `s`. */
  predicate Contains(s: string, t: string) {
    exists i :: 0 <= i <= |s| && StartsWith(s[i..], t)
  }

  /** An occurrence of `t` at position `i` makes `s` contain `t`. */
  lemma ContainsAt(s: string, t: string, i: nat)
    requires i + |t| <= |s| && s[i..i + |t|] == t
    ensures Contains(s, t)
  {
    assert s[i..][..|t|] == s[i..i + |t|];
  }

  /** A string that contains `t` has an occurrence of `t` at some index. */
  lemma ContainsWitness(s: string, t: string) returns (i: nat)
    requires Contains(s, t)
    ensures i + |t| <= |s| && s[i..i + |t|] == t
  {
    var j :| 0 <= j <= |s| && StartsWith(s[j..], t);
    assert s[j..][..|t|] == s[j..j + |t|];
    i := j;
  }

  /** What the tail of a string contains, the string contains. */
  lemma ContainsTail(s: string, t: string)
    requires s != [] && Contains(s[1..], t)
    ensures Contains(s, t)
  {
    var j := ContainsWitness(s[1..], t);
    assert s[1..][j..j + |t|] == s[j + 1..j + 1 + |t|];
    ContainsAt(s, t, j + 1);
  }

  /** A string that contains `t` contains the first character of `t`. */
  lemma ContainsHead(s: string, t: string)
    requires t != []
    ensures Contains(s, t) ==> t[0] in s
  {
    if Contains(s, t) {
      var i := ContainsWitness(s, t);
      assert s[i] == t[0];
    }
  }

  /** A string that contains `t` still contains it once text is added at either end. */
  lemma {:induction false} ContainsInLonger(s: string, u: string, t: string)
    requires Contains(s, t)
    ensures Contains(u + s, t) && Contains(s + u, t)
  {
    var i := ContainsWitness(s, t);
    assert (u + s)[|u| + i..|u| + i + |t|] == s[i..i + |t|];
    ContainsAt(u + s, t, |u| + i);
    assert (s + u)[i..i + |t|] == s[i..i + |t|];
    ContainsAt(s + u, t, i);
  }

  // ---------------------------------------------------------------- case

  predicate IsUpperLetter(c: char) { 'A' <= c <= 'Z' }
  predicate IsLowerLetter(c: char) { 'a' <= c <= 'z' }
  /** A cased character, in Python's sense (restricted to ASCII). */
  predicate IsLetter(c: char) { IsUpperLetter(c) || IsLowerLetter(c) }

  function LowerChar(c: char): char {
    if IsUpperLetter(c) then (c as int + 32) as char else c
  }

  function UpperChar(c: char): char {
    if IsLowerLetter(c) then (c as int - 32) as char else c
  }

  /** `s.lower()` / `s.toLowerCase()`. */
  function Lower(s: string): (r: string)
    ensures |r| == |s|
    ensures forall i :: 0 <= i < |s| ==> r[i] == LowerChar(s[i])
  {
    seq(|s|, i requires 0 <= i < |s| => LowerChar(s[i]))
  }

  /** `s.upper()`. */
  function Upper(s: string): (r: string)
    ensures |r| == |s|
    ensures forall i :: 0 <= i < |s| ==> r[i] == UpperChar(s[i])
  {
    seq(|s|, i requires 0 <= i < |s| => UpperChar(s[i]))
  }

  lemma LowerAppend(a: string, b: string)
    ensures Lower(a + b) == Lower(a) + Lower(b)
  {
  }

  /**
   * Python's `str.title()`: a cased character is upper-cased when the
   * character before it is not cased (a digit, a space, a dash or the start
   * of the string), and lower-cased otherwise; other characters are kept.
   * `prevCased` says whether the character before `s` was cased.
   */
  function TitleChar(c: char, prevCased: bool): char {
    if !IsLetter(c) then c else if prevCased then LowerChar(c) else UpperChar(c)
  }

  function Title(s: string): (r: string)
    ensures |r| == |s|
    ensures forall i :: 0 <= i < |s| ==> r[i] == TitleChar(s[i], i > 0 && IsLetter(s[i - 1]))
  {
    seq(|s|, i requires 0 <= i < |s| => TitleChar(s[i], i > 0 && IsLetter(s[i - 1])))
  }

  // ---------------------------------------------------------- whitespace

  /**
   * The six ASCII whitespace characters (space, tab, LF, CR, VT, FF) that
   * Python's `str.split()`/`str.strip()` and JavaScript's `trim` all remove.
   */
  predicate IsSpace(c: char) {
    c == ' ' || c == '\t' || c == '\n' || c == '\r' || c == '\U{000B}' || c == '\U{000C}'
  }

  /** `s.lstrip()`: the suffix of `s` after its leading whitespace. */
  function LStrip(s: string): (r: string)
    ensures |r| <= |s| && r == s[|s| - |r|..]
    ensures forall i :: 0 <= i < |s| - |r| ==> IsSpace(s[i])
    ensures r != [] ==> !IsSpace(r[0])
    decreases |s|
  {
    if s != [] && IsSpace(s[0]) then LStrip(s[1..]) else s
  }

  /** `s.rstrip()`: the prefix of `s` before its trailing whitespace. */
  function RStrip(s: string): (r: string)
    ensures |r| <= |s| && r == s[..|r|]
    ensures forall i :: |r| <= i < |s| ==> IsSpace(s[i])
    ensures r != [] ==> !IsSpace(r[|r| - 1])
    decreases |s|
  {
    if s != [] && IsSpace(s[|s| - 1]) then RStrip(s[..|s| - 1]) else s
  }

  /** `s.strip()` / `s.trim()`. */
  function Strip(s: string): (r: string)
    ensures |r| <= |s|
    ensures r != [] ==> !IsSpace(r[0]) && !IsSpace(r[|r| - 1])
  {
    RStrip(LStrip(s))
  }

  /** A string with no whitespace at either end is its own `strip()`. */
  lemma StripOfStripped(s: string)
    requires s != [] ==> !IsSpace(s[0]) && !IsSpace(s[|s| - 1])
    ensures Strip(s) == s
  {
  }

  /** `s.strip() or None`: the stripped string, unless nothing is left. */
  function StripOrNone(s: string): (r: Option<string>)
    ensures r.Some? ==> r.value != "" && Strip(r.value) == r.value
    ensures r.None? <==> Strip(s) == ""
  {
    var stripped := Strip(s);
    StripOfStripped(stripped);
    if stripped == "" then None else Some(stripped)
  }

  /** `s.rstrip(c)` for a single character `c`: drops every trailing `c`. */
  function RStripChar(s: string, c: char): (r: string)
    ensures |r| <= |s| && r == s[..|r|]
    ensures forall i :: |r| <= i < |s| ==> s[i] == c
    ensures r != [] ==> r[|r| - 1] != c
    decreases |s|
  {
    if s != [] && s[|s| - 1] == c then RStripChar(s[..|s| - 1], c) else s
  }

  /** `s.lstrip(c)` for a single character `c`: drops every leading `c`. */
  function LStripChar(s: string, c: char): (r: string)
    ensures |r| <= |s| && r == s[|s| - |r|..]
    ensures forall i :: 0 <= i < |s| - |r| ==> s[i] == c
    ensures r != [] ==> r[0] != c
    decreases |s|
  {
    if s != [] && s[0] == c then LStripChar(s[1..], c) else s
  }

  /** The longest prefix of `s` without whitespace. */
  function WordPrefix(s: string): (w: string)
    ensures |w| <= |s| && w == s[..|w|]
    ensures forall i :: 0 <= i < |w| ==> !IsSpace(w[i])
    ensures |w| < |s| ==> IsSpace(s[|w|])
    decreases |s|
  {
    if s == [] || IsSpace(s[0]) then [] else [s[0]] + WordPrefix(s[1..])
  }

  predicate NoSpace(w: string) {
    forall i :: 0 <= i < |w| ==> !IsSpace(w[i])
  }

  /**
   * Python's `s.split()` with no argument: the maximal runs of
   * non-whitespace. `cur` is the part of a word already read.
   */
  function WordsFrom(s: string, cur: string): (ws: seq<string>)
    decreases |s|
  {
    if s == [] then (if cur == [] then [] else [cur])
    else if IsSpace(s[0]) then (if cur == [] then WordsFrom(s[1..], []) else [cur] + WordsFrom(s[1..], []))
    else WordsFrom(s[1..], cur + [s[0]])
  }

  function Words(s: string): seq<string> {
    WordsFrom(s, [])
  }

  lemma {:induction false} WordsFromClean(s: string, cur: string)
    requires NoSpace(cur)
    ensures forall k :: 0 <= k < |WordsFrom(s, cur)| ==> WordsFrom(s, cur)[k] != [] && NoSpace(WordsFrom(s, cur)[k])
    decreases |s|
  {
    if s != [] {
      if IsSpace(s[0]) {
        WordsFromClean(s[1..], []);
      } else {
        WordsFromClean(s[1..], cur + [s[0]]);
      }
    }
  }

  /** Every word `split()` returns is non-empty and free of whitespace. */
  lemma WordsAreClean(s: string)
    ensures forall k :: 0 <= k < |Words(s)| ==> Words(s)[k] != [] && NoSpace(Words(s)[k])
  {
    WordsFromClean(s, []);
  }

  /** The first word starts with the part already read, or with the first character when that is not whitespace. */
  lemma {:induction false} WordsFromHead(s: string, cur: string)
    requires cur != [] || (s != [] && !IsSpace(s[0]))
    ensures WordsFrom(s, cur) != []
    ensures WordsFrom(s, cur)[0] != []
    ensures WordsFrom(s, cur)[0][0] == if cur != [] then cur[0] else s[0]
    decreases |s|
  {
    if s != [] && !IsSpace(s[0]) {
      WordsFromHead(s[1..], cur + [s[0]]);
    }
  }

  /** A character absent from the input is absent from every word. */
  lemma {:induction false} WordsFromKeepAbsent(s: string, cur: string, c: char)
    requires c !in s && c !in cur
    ensures forall k :: 0 <= k < |WordsFrom(s, cur)| ==> c !in WordsFrom(s, cur)[k]
    decreases |s|
  {
    if s != [] {
      if IsSpace(s[0]) {
        WordsFromKeepAbsent(s[1..], [], c);
      } else {
        WordsFromKeepAbsent(s[1..], cur + [s[0]], c);
      }
    }
  }

  /** `sep.join(parts)`. */
  function Join(parts: seq<string>, sep: string): (r: string)
    decreases |parts|
  {
    if |parts| == 0 then ""
    else if |parts| == 1 then parts[0]
    else parts[0] + sep + Join(parts[1..], sep)
  }

  /** Joining words with single spaces never puts whitespace at an end or two spaces together. */
  lemma {:induction false} JoinWordsIsClean(ws: seq<string>)
    requires forall k :: 0 <= k < |ws| ==> ws[k] != [] && NoSpace(ws[k])
    ensures var r := Join(ws, " ");
      && (r != [] ==> !IsSpace(r[0]) && !IsSpace(r[|r| - 1]))
      && (forall i :: 0 <= i < |r| && IsSpace(r[i]) ==>
            r[i] == ' ' && 0 < i < |r| - 1 && !IsSpace(r[i - 1]) && !IsSpace(r[i + 1]))
    decreases |ws|
  {
    if |ws| > 1 {
      JoinWordsIsClean(ws[1..]);
      var rest := Join(ws[1..], " ");
      var r := ws[0] + " " + rest;
      assert Join(ws, " ") == r;
      assert rest != [] by { assert ws[1..][0] != []; JoinNonEmpty(ws[1..], " "); }
      forall i | 0 <= i < |r| && IsSpace(r[i])
        ensures r[i] == ' ' && 0 < i < |r| - 1 && !IsSpace(r[i - 1]) && !IsSpace(r[i + 1])
      {
        if i == |ws[0]| {
          assert r[i - 1] == ws[0][|ws[0]| - 1];
          assert r[i + 1] == rest[0];
        } else if i > |ws[0]| {
          assert r[i] == rest[i - |ws[0]| - 1];
          var j := i - |ws[0]| - 1;
          if j == 0 {
          } else {
            assert r[i - 1] == rest[j - 1];
            assert r[i + 1] == rest[j + 1];
          }
        }
      }
    }
  }

  /** `"".join(parts)`. */
  function Concat(parts: seq<string>): string {
    if parts == [] then "" else Concat(parts[..|parts| - 1]) + parts[|parts| - 1]
  }

  lemma {:induction false} ConcatAppend(a: seq<string>, b: seq<string>)
    ensures Concat(a + b) == Concat(a) + Concat(b)
    decreases |b|
  {
    if b == [] {
      assert a + b == a;
    } else {
      var b', x := b[..|b| - 1], b[|b| - 1];
      assert (a + b)[..|a + b| - 1] == a + b' && (a + b)[|a + b| - 1] == x;
      ConcatAppend(a, b');
      calc {
        Concat(a + b);
        Concat(a + b') + x;
        (Concat(a) + Concat(b')) + x;
        Concat(a) + (Concat(b') + x);
        Concat(a) + Concat(b);
      }
    }
  }

  lemma {:induction false} JoinNonEmpty(ws: seq<string>, sep: string)
    requires |ws| > 0 && ws[0] != []
    ensures Join(ws, sep) != [] && Join(ws, sep)[0] == ws[0][0]
  {
  }

  // ------------------------------------------------------------- splitting

  /** `s.split(c)` for a one-character separator: the pieces between the separators. */
  function SplitOn(s: string, c: char): (r: seq<string>)
    ensures |r| >= 1
    ensures forall k :: 0 <= k < |r| ==> c !in r[k]
    ensures Join(r, [c]) == s
    decreases |s|
  {
    if s == [] then [""]
    else
      var rest := SplitOn(s[1..], c);
      if s[0] == c then [""] + rest
      else [[s[0]] + rest[0]] + rest[1..]
  }

  /** Splitting a string whose head holds no separator puts that head in front of the first piece. */
  lemma {:induction false} SplitOnPrefix(a: string, b: string, c: char)
    requires c !in a
    ensures SplitOn(a + b, c) == [a + SplitOn(b, c)[0]] + SplitOn(b, c)[1..]
    decreases |a|
  {
    if a == [] {
      assert a + b == b;
      assert a + SplitOn(b, c)[0] == SplitOn(b, c)[0];
      assert SplitOn(b, c) == [SplitOn(b, c)[0]] + SplitOn(b, c)[1..];
    } else {
      assert (a + b)[1..] == a[1..] + b;
      SplitOnPrefix(a[1..], b, c);
      assert [a[0]] + (a[1..] + SplitOn(b, c)[0]) == a + SplitOn(b, c)[0];
    }
  }

  /** The position of the first `c` in `s`: what `s.split(c, 1)` and `s.index(c)` find. */
  function IndexOfChar(s: string, c: char): (k: nat)
    requires c in s
    ensures k < |s| && s[k] == c && c !in s[..k]
  {
    if s[0] == c then 0
    else
      assert s == [s[0]] + s[1..];
      var k := IndexOfChar(s[1..], c);
      assert s[..k + 1] == [s[0]] + s[1..][..k];
      k + 1
  }

  /**
   * Python's `s.split(maxsplit=n)`: up to `n` whitespace-separated words,
   * then the rest of the string with its leading whitespace removed and
   * its trailing whitespace kept.
   */
  function SplitMax(s: string, n: nat): (ws: seq<string>)
    ensures |ws| <= n + 1
    decreases |s|
  {
    var t := LStrip(s);
    if t == [] then []
    else if n == 0 then [t]
    else
      var w := WordPrefix(t);
      assert w != [];
      [w] + SplitMax(t[|w|..], n - 1)
  }

  /** A string that starts with a non-space splits into at least one piece, led by its first word. */
  lemma SplitMaxHead(s: string, n: nat)
    requires s != [] && !IsSpace(s[0])
    ensures |SplitMax(s, n)| >= 1
    ensures SplitMax(s, n)[0] == if n == 0 then s else WordPrefix(s)
  {
    assert LStrip(s) == s;
  }

  /** The decimal digits of `n`. */
  function Decimal(n: nat): (r: string)
    ensures r != [] && forall i :: 0 <= i < |r| ==> '0' <= r[i] <= '9'
  {
    var d := ['0' + (n % 10) as char];
    if n < 10 then d else Decimal(n / 10) + d
  }

  /** Python's `s.replace(pat, rep)`: every non-overlapping occurrence, left to right. */
  function ReplaceAll(s: string, pat: string, rep: string): (r: string)
    requires pat != []
    decreases |s|
  {
    if |s| < |pat| then s
    else if s[..|pat|] == pat then rep + ReplaceAll(s[|pat|..], pat, rep)
    else [s[0]] + ReplaceAll(s[1..], pat, rep)
  }

  /** `s` with every `c` turned into `d`. */
  function MapChar(s: string, c: char, d: char): (r: string)
    ensures |r| == |s|
    ensures forall i :: 0 <= i < |s| ==> r[i] == if s[i] == c then d else s[i]
  {
    seq(|s|, i requires 0 <= i < |s| => if s[i] == c then d else s[i])
  }

  /** Replacing a one-character string by another is a character map. */
  lemma {:induction false} ReplaceCharIsMap(s: string, c: char, d: char)
    ensures ReplaceAll(s, [c], [d]) == MapChar(s, c, d)
    decreases |s|
  {
    if s != [] {
      ReplaceCharIsMap(s[1..], c, d);
      assert MapChar(s, c, d) == [if s[0] == c then d else s[0]] + MapChar(s[1..], c, d);
    }
  }

  /** Replacing a string that does not occur changes nothing. */
  lemma {:induction false} ReplaceAbsent(s: string, pat: string, rep: string)
    requires pat != [] && !Contains(s, pat)
    ensures ReplaceAll(s, pat, rep) == s
    decreases |s|
  {
    if |s| >= |pat| {
      assert s[0..] == s;
      assert s[..|pat|] != pat;
      if Contains(s[1..], pat) {
        ContainsTail(s, pat);
      }
      ReplaceAbsent(s[1..], pat, rep);
    }
  }

  /** Replacing every occurrence of one character by text without it removes the character. */
  lemma {:induction false} ReplaceCharRemoves(s: string, c: char, rep: string)
    requires c !in rep
    ensures c !in ReplaceAll(s, [c], rep)
    decreases |s|
  {
    if |s| >= 1 {
      ReplaceCharRemoves(s[1..], c, rep);
    }
  }

  /** For a one-character pattern, containment is membership. */
  lemma ContainsChar(s: string, c: char)
    ensures Contains(s, [c]) <==> c in s
  {
    if c in s {
      var i :| 0 <= i < |s| && s[i] == c;
      ContainsAt(s, [c], i);
    }
    if Contains(s, [c]) {
      var i := ContainsWitness(s, [c]);
      assert s[i] == c;
    }
  }

  /** Text free of the pattern's first character passes through a replacement unchanged. */
  lemma {:induction false} ReplaceSkipsPrefix(x: string, y: string, pat: string, rep: string)
    requires pat != [] && pat[0] !in x
    ensures ReplaceAll(x + y, pat, rep) == x + ReplaceAll(y, pat, rep)
    decreases |x|
  {
    if x != [] {
      var s := x + y;
      assert s[1..] == x[1..] + y;
      ReplaceSkipsPrefix(x[1..], y, pat, rep);
      if |s| >= |pat| {
        assert s[..|pat|][0] == x[0] != pat[0];
        calc {
          ReplaceAll(s, pat, rep);
          [s[0]] + ReplaceAll(s[1..], pat, rep);
          [x[0]] + (x[1..] + ReplaceAll(y, pat, rep));
          { assert x == [x[0]] + x[1..]; }
          x + ReplaceAll(y, pat, rep);
        }
      } else {
        assert ReplaceAll(y, pat, rep) == y;
      }
    } else {
      assert x + y == y;
    }
  }

  /** An occurrence at the front is replaced, and the scan goes on after it. */
  lemma ReplaceAtHead(pat: string, y: string, rep: string)
    requires pat != []
    ensures ReplaceAll(pat + y, pat, rep) == rep + ReplaceAll(y, pat, rep)
  {
    assert (pat + y)[..|pat|] == pat;
    assert (pat + y)[|pat|..] == y;
  }

  /** A string that contains `t` contains every character of `t`. */
  lemma ContainsHasChar(s: string, t: string, k: nat)
    requires k < |t|
    ensures Contains(s, t) ==> t[k] in s
  {
    if Contains(s, t) {
      var i := ContainsWitness(s, t);
      assert s[i + k] == t[k];
    }
  }
}
