/** The Python string built-ins that the chat core relies on, over `string`
    (sequences of Unicode scalar values): whitespace splitting and joining,
    stripping, case folding, substring search, splitting at the first colon and
    reading a text file line by line. */
module Text {
  import opened Wrappers

  /** Python's whitespace class (`str.isspace`), used by `str.split()` and
      `str.strip()` when they are called without an argument. */
  predicate IsSpace(c: char)
  {
    c == ' ' || '\t' <= c <= '\r' || '\U{1C}' <= c <= '\U{1F}' || c == '\U{85}' || c == '\U{A0}'
    || c == '\U{1680}' || '\U{2000}' <= c <= '\U{200A}' || c == '\U{2028}' || c == '\U{2029}'
    || c == '\U{202F}' || c == '\U{205F}' || c == '\U{3000}'
  }

  /** A non-empty run of non-whitespace characters. */
  predicate IsWord(w: string)
  {
    w != [] && forall i :: 0 <= i < |w| ==> !IsSpace(w[i])
  }

  /** The text `" ".join(s.split())` produces: no whitespace at either end, and
      every whitespace character is a single space followed by a non-space. */
  predicate IsClean(s: string)
  {
    (s != [] ==> !IsSpace(s[0]) && !IsSpace(s[|s| - 1])) &&
    forall i :: 0 <= i < |s| && IsSpace(s[i]) ==> s[i] == ' ' && i + 1 < |s| && !IsSpace(s[i + 1])
  }

  // ---------------------------------------------------------------------------
  // strip

  /** `s.lstrip()`: the longest suffix of `s` that does not start with whitespace. */
  function LStrip(s: string): (r: string)
    ensures |r| <= |s|
  {
    if s != [] && IsSpace(s[0]) then LStrip(s[1..]) else s
  }

  /** `lstrip()` drops only whitespace, and only from the front, and leaves
      no whitespace in front. */
  lemma {:induction false} LStripDrops(s: string)
    ensures var r := LStrip(s);
      && r == s[|s| - |r|..]
      && (forall i :: 0 <= i < |s| - |r| ==> IsSpace(s[i]))
      && (r != [] ==> !IsSpace(r[0]))
  {
    if s != [] && IsSpace(s[0]) {
      LStripDrops(s[1..]);
    }
  }

  /** `s.rstrip()`: the longest prefix of `s` that does not end with whitespace. */
  function RStrip(s: string): (r: string)
    ensures |r| <= |s|
  {
    if s != [] && IsSpace(s[|s| - 1]) then RStrip(s[..|s| - 1]) else s
  }

  /** `rstrip()` drops only whitespace, and only from the end, and leaves no
      whitespace at the end. */
  lemma {:induction false} RStripDrops(s: string)
    ensures var r := RStrip(s);
      && r == s[..|r|]
      && (forall i :: |r| <= i < |s| ==> IsSpace(s[i]))
      && (r != [] ==> !IsSpace(r[|r| - 1]))
  {
    if s != [] && IsSpace(s[|s| - 1]) {
      RStripDrops(s[..|s| - 1]);
    }
  }

  /** Stripping a space from the end leaves what stripping the rest leaves. */
  lemma RStripSpace(s: string, c: char)
    requires IsSpace(c)
    ensures RStrip(s + [c]) == RStrip(s)
  {
    assert (s + [c])[..|s|] == s;
  }

  /** A string that does not end with whitespace is its own `rstrip()`. */
  lemma RStripNone(s: string)
    requires s == [] || !IsSpace(s[|s| - 1])
    ensures RStrip(s) == s
  {
  }

  /** A string that does not start with whitespace is its own `lstrip()`. */
  lemma LStripNone(s: string)
    requires s == [] || !IsSpace(s[0])
    ensures LStrip(s) == s
  {
  }

  /** `s.strip()`. */
  function Strip(s: string): string
  {
    RStrip(LStrip(s))
  }

  // ---------------------------------------------------------------------------
  // split and join

  /** The length of the run of non-whitespace characters that starts `s`. */
  function WordLength(s: string): (k: nat)
    ensures k <= |s|
    ensures forall i :: 0 <= i < k ==> !IsSpace(s[i])
    ensures k < |s| ==> IsSpace(s[k])
  {
    if s == [] || IsSpace(s[0]) then 0 else 1 + WordLength(s[1..])
  }

  /** `s.split()`: the maximal runs of non-whitespace characters, in order. */
  function Words(s: string): (ws: seq<string>)
    ensures forall i :: 0 <= i < |ws| ==> IsWord(ws[i])
    decreases |s|
  {
    var t := LStrip(s);
    if t == [] then []
    else
      LStripDrops(s);
      var k := WordLength(t);
      assert k > 0;
      var w := t[..k];
      assert IsWord(w);
      var ws := [w] + Words(t[k..]);
      ws
  }

  /** `sep.join(parts)`. */
  function Join(sep: string, parts: seq<string>): string
  {
    if parts == [] then ""
    else if |parts| == 1 then parts[0]
    else parts[0] + sep + Join(sep, parts[1..])
  }

  /** `" ".join(s.split())`: whitespace normalisation. */
  function Normalize(s: string): (r: string)
    ensures IsClean(r)
    ensures '\n' !in r
  {
    var ws := Words(s);
    JoinWordsClean(ws);
    Join(" ", ws)
  }

  /** The characters of `s` that are not whitespace, in order. */
  function NonSpace(s: string): string
  {
    if s == [] then ""
    else (if IsSpace(s[0]) then "" else [s[0]]) + NonSpace(s[1..])
  }

  /** Every string built from single-space-separated words is clean, and it
      starts with its first word. */
  lemma {:induction false} JoinWordsClean(ws: seq<string>)
    requires forall i :: 0 <= i < |ws| ==> IsWord(ws[i])
    ensures IsClean(Join(" ", ws))
    ensures ws != [] ==> Join(" ", ws) != [] && Join(" ", ws)[0] == ws[0][0]
  {
    if |ws| == 1 {
      var w := ws[0];
      assert Join(" ", ws) == w;
    } else if |ws| > 1 {
      var w := ws[0];
      var rest := Join(" ", ws[1..]);
      JoinWordsClean(ws[1..]);
      var j := w + " " + rest;
      assert Join(" ", ws) == j;
      assert rest != [] && rest[0] == ws[1][0];
      forall i | 0 <= i < |j|
        ensures IsSpace(j[i]) ==> j[i] == ' ' && i + 1 < |j| && !IsSpace(j[i + 1])
      {
        if i < |w| {
          assert j[i] == w[i];
        } else if i == |w| {
          assert j[i + 1] == rest[0];
        } else {
          assert j[i] == rest[i - |w| - 1];
          if IsSpace(rest[i - |w| - 1]) {
            assert j[i + 1] == rest[i - |w|];
          }
        }
      }
      assert j[0] == w[0];
      assert j[|j| - 1] == rest[|rest| - 1];
    }
  }

  lemma WordLengthOfWord(w: string, x: string)
    requires IsWord(w)
    requires x == [] || IsSpace(x[0])
    ensures WordLength(w + x) == |w|
  {
    var s := w + x;
    assert forall i :: 0 <= i < |w| ==> s[i] == w[i];
    if x != [] {
      assert s[|w|] == x[0];
    }
  }

  /** Splitting a string built by joining words with single spaces gives the
      words back. */
  lemma {:induction false} WordsOfJoin(ws: seq<string>)
    requires forall i :: 0 <= i < |ws| ==> IsWord(ws[i])
    ensures Words(Join(" ", ws)) == ws
  {
    if ws == [] {
    } else if |ws| == 1 {
      var w := ws[0];
      assert Join(" ", ws) == w;
      WordLengthOfWord(w, "");
      assert w + "" == w;
      assert w[|w|..] == "";
    } else {
      var w := ws[0];
      var rest := Join(" ", ws[1..]);
      JoinWordsClean(ws[1..]);
      var j := w + " " + rest;
      assert Join(" ", ws) == j;
      assert LStrip(j) == j;
      WordLengthOfWord(w, " " + rest);
      assert w + (" " + rest) == j;
      assert j[..|w|] == w;
      assert j[|w|..] == " " + rest;
      assert (" " + rest)[1..] == rest;
      assert LStrip(" " + rest) == LStrip(rest) == rest;
      WordsOfJoin(ws[1..]);
      assert Words(" " + rest) == Words(rest);
    }
  }

  /** `split()` skips a leading whitespace character. */
  lemma WordsSkipSpace(x: string)
    requires x != [] && IsSpace(x[0])
    ensures Words(x) == Words(x[1..])
  {
    assert LStrip(x) == LStrip(x[1..]);
  }

  /** A word followed by whitespace, or by nothing, is the first word. */
  lemma WordsFirst(w: string, x: string)
    requires IsWord(w)
    requires x == [] || IsSpace(x[0])
    ensures Words(w + x) == [w] + Words(x)
  {
    var u := w + x;
    LStripNone(u);
    WordLengthOfWord(w, x);
    assert u[..|w|] == w;
    assert u[|w|..] == x;
  }

  /** The text `t`, which starts with a word, is that word and the rest. */
  lemma WordsSplitFirst(t: string)
    requires t != [] && !IsSpace(t[0])
    ensures var k := WordLength(t);
      0 < k && IsWord(t[..k]) && t == t[..k] + t[k..] && (t[k..] == [] || IsSpace(t[k..][0]))
  {
  }

  /** Whitespace separates words: a whitespace character splits the text into
      the words before it and the words after it, and no word spans it. */
  lemma {:induction false} WordsAtSpace(a: string, b: string, c: char)
    requires IsSpace(c)
    ensures Words(a + [c] + b) == Words(a) + Words(b)
    decreases |a|, 1
  {
    if a == [] {
      var s := a + [c] + b;
      assert s == [c] + b && s[1..] == b;
      WordsSkipSpace(s);
    } else if IsSpace(a[0]) {
      WordsAtSpaceAfterSpace(a, b, c);
    } else {
      WordsAtSpaceAfterWord(a, b, c);
    }
  }

  /** `WordsAtSpace` when `a` starts with whitespace. */
  lemma {:induction false} WordsAtSpaceAfterSpace(a: string, b: string, c: char)
    requires IsSpace(c)
    requires a != [] && IsSpace(a[0])
    ensures Words(a + [c] + b) == Words(a) + Words(b)
    decreases |a|, 0
  {
    var s := a + [c] + b;
    assert s[0] == a[0] && s[1..] == a[1..] + [c] + b;
    WordsSkipSpace(s);
    WordsSkipSpace(a);
    WordsAtSpace(a[1..], b, c);
  }

  /** `WordsAtSpace` when `a` starts with a word. */
  lemma {:induction false} WordsAtSpaceAfterWord(a: string, b: string, c: char)
    requires IsSpace(c)
    requires a != [] && !IsSpace(a[0])
    ensures Words(a + [c] + b) == Words(a) + Words(b)
    decreases |a|, 0
  {
    var k := WordLength(a);
    var rest := a[k..];
    assert 0 < k by { WordsSplitFirst(a); }
    assert Words(a) == [a[..k]] + Words(rest) by {
      WordsSplitFirst(a);
      WordsAfterFirst(a, k, rest, a);
    }
    assert Words(a + [c] + b) == [a[..k]] + Words(rest + [c] + b) by {
      WordsSplitFirst(a);
      assert a + [c] + b == a[..k] + (rest + [c] + b);
      WordsAfterFirst(a, k, rest + [c] + b, a + [c] + b);
    }
    WordsAtSpace(rest, b, c);
    ConsThenAppend(Words(a + [c] + b), Words(a), a[..k], Words(rest), Words(b), Words(rest + [c] + b));
  }

  /** Rewriting a sequence that starts with `w` through two equations, kept
      apart from what the sequences are. */
  lemma ConsThenAppend<T>(s: seq<T>, t: seq<T>, w: T, x: seq<T>, y: seq<T>, z: seq<T>)
    requires s == [w] + z && z == x + y && t == [w] + x
    ensures s == t + y
  {
  }

  /** A text made of the first word of `a` and then `x`, which is empty or
      starts with whitespace, has that word and then the words of `x`. */
  lemma WordsAfterFirst(a: string, k: nat, x: string, s: string)
    requires 0 < k <= |a| && IsWord(a[..k])
    requires x == [] || IsSpace(x[0])
    requires s == a[..k] + x
    ensures Words(s) == [a[..k]] + Words(x)
  {
    WordsFirst(a[..k], x);
  }

  /** Whitespace normalisation is idempotent. */
  lemma NormalizeIdempotent(s: string)
    ensures Normalize(Normalize(s)) == Normalize(s)
  {
    WordsOfJoin(Words(s));
  }

  lemma {:induction false} NonSpaceConcat(a: string, b: string)
    ensures NonSpace(a + b) == NonSpace(a) + NonSpace(b)
  {
    if a != [] {
      assert (a + b)[0] == a[0];
      assert (a + b)[1..] == a[1..] + b;
      NonSpaceConcat(a[1..], b);
    } else {
      assert a + b == b;
    }
  }

  lemma {:induction false} NonSpaceOfSpaces(s: string)
    requires forall i :: 0 <= i < |s| ==> IsSpace(s[i])
    ensures NonSpace(s) == ""
  {
    if s != [] {
      NonSpaceOfSpaces(s[1..]);
    }
  }

  lemma {:induction false} NonSpaceOfWord(w: string)
    requires forall i :: 0 <= i < |w| ==> !IsSpace(w[i])
    ensures NonSpace(w) == w
  {
    if w != [] {
      NonSpaceOfWord(w[1..]);
      assert [w[0]] + w[1..] == w;
    }
  }

  lemma NonSpaceOfLStrip(s: string)
    ensures NonSpace(LStrip(s)) == NonSpace(s)
  {
    var t := LStrip(s);
    var d := |s| - |t|;
    LStripDrops(s);
    assert s == s[..d] + t;
    NonSpaceConcat(s[..d], t);
    NonSpaceOfSpaces(s[..d]);
  }

  lemma NonSpaceOfWordThen(t: string, k: nat)
    requires k <= |t|
    requires forall i :: 0 <= i < k ==> !IsSpace(t[i])
    ensures NonSpace(t) == t[..k] + NonSpace(t[k..])
  {
    assert t == t[..k] + t[k..];
    NonSpaceConcat(t[..k], t[k..]);
    NonSpaceOfWord(t[..k]);
  }

  /** `s.split()` loses only whitespace: the words, put together, are the
      non-whitespace characters of `s` in their original order. */
  lemma {:induction false} WordsKeepText(s: string)
    ensures Concat(Words(s)) == NonSpace(s)
    decreases |s|
  {
    var t := LStrip(s);
    NonSpaceOfLStrip(s);
    if t != [] {
      var k := WordLength(t);
      NonSpaceOfWordThen(t, k);
      WordsKeepText(t[k..]);
      var ws := Words(s);
      assert ws[1..] == Words(t[k..]);
    }
  }

  // ---------------------------------------------------------------------------
  // lower-casing and substring search

  /** Lower-casing of one character (ASCII letters only). */
  function LowerChar(c: char): char
  {
    if 'A' <= c <= 'Z' then (c as int + 32) as char else c
  }

  /** Upper-casing of one character (ASCII letters only). */
  function UpperChar(c: char): char
  {
    if 'a' <= c <= 'z' then (c as int - 32) as char else c
  }

  /** `s.lower()`. */
  function Lower(s: string): string
  {
    seq(|s|, i requires 0 <= i < |s| => LowerChar(s[i]))
  }

  /** `s.upper()`. */
  function Upper(s: string): string
  {
    seq(|s|, i requires 0 <= i < |s| => UpperChar(s[i]))
  }

  /** Lower-casing works character by character, so it distributes over
      concatenation. */
  lemma LowerConcat(a: string, b: string)
    ensures Lower(a + b) == Lower(a) + Lower(b)
  {
    assert forall i :: 0 <= i < |a| ==> (a + b)[i] == a[i];
    assert forall i :: |a| <= i < |a| + |b| ==> (a + b)[i] == b[i - |a|];
  }

  /** Upper-casing first does not change what lower-casing gives. */
  lemma LowerOfUpper(s: string)
    ensures Lower(Upper(s)) == Lower(s)
  {
    forall i | 0 <= i < |s| ensures LowerChar(UpperChar(s[i])) == LowerChar(s[i]) {
    }
  }

  /** `sub` occurs in `s` starting at position `i`. */
  predicate OccursAt(sub: string, s: string, i: nat)
  {
    i + |sub| <= |s| && s[i..i + |sub|] == sub
  }

  /** `sub in s` for strings. */
  predicate Contains(sub: string, s: string)
    decreases |s|
  {
    sub <= s || (s != [] && Contains(sub, s[1..]))
  }

  /** Python's substring test holds exactly when the substring occurs at some
      position. */
  lemma {:induction false} ContainsIff(sub: string, s: string)
    ensures Contains(sub, s) <==> exists i: nat :: OccursAt(sub, s, i)
    decreases |s|
  {
    if s == [] {
      if sub == [] {
        assert OccursAt(sub, s, 0);
      }
    } else {
      ContainsIff(sub, s[1..]);
      forall i: nat | OccursAt(sub, s, i)
        ensures sub <= s || (i > 0 && OccursAt(sub, s[1..], i - 1))
      {
        if i > 0 {
          assert s[1..][i - 1..i - 1 + |sub|] == s[i..i + |sub|];
        }
      }
      forall i: nat | OccursAt(sub, s[1..], i)
        ensures OccursAt(sub, s, i + 1)
      {
        assert s[1..][i..i + |sub|] == s[i + 1..i + 1 + |sub|];
      }
      if sub <= s {
        assert OccursAt(sub, s, 0);
      }
    }
  }

  // ---------------------------------------------------------------------------
  // split(":", 1)

  /** The position of the first `':'` in `s`, or `|s|` when there is none. */
  function FirstColon(s: string): (k: nat)
    ensures k <= |s|
    ensures forall i :: 0 <= i < k ==> s[i] != ':'
    ensures k < |s| ==> s[k] == ':'
  {
    if s == [] || s[0] == ':' then 0 else 1 + FirstColon(s[1..])
  }

  /** `s.split(":", 1)[1]`: what follows the first colon, or `None` where
      Python raises `IndexError` because `s` has no colon. */
  function AfterFirstColon(s: string): (r: Option<string>)
    ensures r.Some? <==> ':' in s
    ensures r.Some? ==> exists k :: 0 <= k < |s| && s[k] == ':' && ':' !in s[..k] && r.value == s[k + 1..]
  {
    var k := FirstColon(s);
    if k < |s| then
      assert ':' !in s[..k];
      Some(s[k + 1..])
    else
      None
  }

  /** Splitting `head + ":" + tail` at the first colon yields `tail` when
      `head` has no colon. */
  lemma AfterFirstColonOf(head: string, tail: string)
    requires ':' !in head
    ensures AfterFirstColon(head + ":" + tail) == Some(tail)
  {
    var s := head + ":" + tail;
    assert forall i :: 0 <= i < |head| ==> s[i] == head[i];
    assert s[|head|] == ':';
    assert s[|head| + 1..] == tail;
  }

  // ---------------------------------------------------------------------------
  // reading a text file

  /** `"".join(lines)`: the text of a file made of these lines. */
  function Concat(lines: seq<string>): string
  {
    if lines == [] then "" else lines[0] + Concat(lines[1..])
  }

  /** One line of a file as `readlines` returns it: it ends with the only
      newline it holds. */
  predicate IsLine(l: string)
  {
    l != [] && l[|l| - 1] == '\n' && forall i :: 0 <= i < |l| - 1 ==> l[i] != '\n'
  }

  /** The length of the first line of `t`, its newline included. */
  function LineLength(t: string): (k: nat)
    requires t != []
    ensures 0 < k <= |t|
    ensures forall i :: 0 <= i < k - 1 ==> t[i] != '\n'
    ensures k < |t| ==> t[k - 1] == '\n'
  {
    if t[0] == '\n' || |t| == 1 then 1 else 1 + LineLength(t[1..])
  }

  /** `f.readlines()` on a file holding `t`: each line keeps its newline; a
      last piece without newline is a line of its own. Nothing is lost. */
  function ReadLines(t: string): (ls: seq<string>)
    ensures Concat(ls) == t
    ensures forall i :: 0 <= i < |ls| ==> ls[i] != []
    decreases |t|
  {
    if t == [] then []
    else
      var k := LineLength(t);
      var rest := ReadLines(t[k..]);
      var ls := [t[..k]] + rest;
      assert ls[1..] == rest;
      assert t[..k] + t[k..] == t;
      ls
  }

  lemma {:induction false} ConcatAppend(ls: seq<string>, x: string)
    ensures Concat(ls + [x]) == Concat(ls) + x
  {
    if ls == [] {
      assert [] + [x] == [x];
      assert [x][1..] == [];
    } else {
      assert (ls + [x])[1..] == ls[1..] + [x];
      ConcatAppend(ls[1..], x);
    }
  }

  lemma LineLengthOfLine(l: string, x: string)
    requires IsLine(l)
    ensures LineLength(l + x) == |l|
  {
    var t := l + x;
    assert forall i :: 0 <= i < |l| ==> t[i] == l[i];
  }

  /** Reading back a file written as a sequence of lines yields exactly those
      lines. */
  lemma {:induction false} ReadLinesOfConcat(ls: seq<string>)
    requires forall i :: 0 <= i < |ls| ==> IsLine(ls[i])
    ensures ReadLines(Concat(ls)) == ls
  {
    if ls != [] {
      var l := ls[0];
      var c := Concat(ls[1..]);
      LineLengthOfLine(l, c);
      assert (l + c)[..|l|] == l;
      assert (l + c)[|l|..] == c;
      ReadLinesOfConcat(ls[1..]);
      assert ls == [l] + ls[1..];
    }
  }
}
