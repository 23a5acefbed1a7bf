/**
 * The few Python `str` operations the converters rely on: `strip()`,
 * `split(sep)`, `split()` (on runs of white space), `sep.join(...)`,
 * `startswith`, the `in` test for substrings, and `upper()`/`lower()`/
 * `capitalize()` restricted to ASCII letters.
 */
module Text {

  /** `str.isspace()` for one character: the characters Python strips and splits on. */
  predicate IsSpace(c: char)
  {
    || c == ' '
    || '\t' <= c <= '\r'                  // \t \n \v \f \r
    || '\U{1C}' <= c <= '\U{1F}'
    || c == '\U{85}' || c == '\U{A0}' || c == '\U{1680}'
    || '\U{2000}' <= c <= '\U{200A}'
    || c == '\U{2028}' || c == '\U{2029}' || c == '\U{202F}'
    || c == '\U{205F}' || c == '\U{3000}'
  }

  predicate AllSpace(s: string)
  {
    forall i :: 0 <= i < |s| ==> IsSpace(s[i])
  }

  predicate NoSpace(s: string)
  {
    forall i :: 0 <= i < |s| ==> !IsSpace(s[i])
  }

  /** `s.lstrip()`: drops the leading white space, and nothing else. */
  function LStrip(s: string): (r: string)
    ensures |r| <= |s| && r == s[|s| - |r|..]
    ensures r == [] || !IsSpace(r[0])
    decreases |s|
  {
    if s != [] && IsSpace(s[0]) then LStrip(s[1..]) else s
  }

  /** What `lstrip()` drops is white space. */
  lemma {:induction false} LStripDropsSpace(s: string)
    ensures AllSpace(s[..|s| - |LStrip(s)|])
    decreases |s|
  {
    if s != [] && IsSpace(s[0]) {
      var tail := s[1..];
      LStripDropsSpace(tail);
      var r := LStrip(tail);
      assert s[..|s| - |r|] == [s[0]] + tail[..|tail| - |r|];
    }
  }

  /** `s.rstrip()`: drops the trailing white space, and nothing else. */
  function RStrip(s: string): (r: string)
    ensures |r| <= |s| && r == s[..|r|]
    ensures r == [] || !IsSpace(r[|r| - 1])
    decreases |s|
  {
    if s != [] && IsSpace(s[|s| - 1]) then RStrip(s[..|s| - 1]) else s
  }

  /** What `rstrip()` drops is white space. */
  lemma {:induction false} RStripDropsSpace(s: string)
    ensures AllSpace(s[|RStrip(s)|..])
    decreases |s|
  {
    if s != [] && IsSpace(s[|s| - 1]) {
      var init := s[..|s| - 1];
      RStripDropsSpace(init);
      var r := RStrip(init);
      assert s[|r|..] == init[|r|..] + [s[|s| - 1]];
    }
  }

  /** `s.strip()`. */
  function Strip(s: string): string
  {
    LStrip(RStrip(s))
  }

  lemma {:induction false} StripBounds(s: string)
    ensures var r := Strip(s);
      r == [] || (!IsSpace(r[0]) && !IsSpace(r[|r| - 1]))
  {
    var t := RStrip(s);
    var r := LStrip(t);
    if r != [] {
      assert r == t[|t| - |r|..];
      assert r[|r| - 1] == t[|t| - 1];
    }
  }

  /** A text that neither starts nor ends with white space is its own `strip()`. */
  lemma {:induction false} StripNoop(s: string)
    requires s == [] || (!IsSpace(s[0]) && !IsSpace(s[|s| - 1]))
    ensures Strip(s) == s
  {
  }

  /** Trailing white space never survives `rstrip()`. */
  lemma {:induction false} RStripTrailingSpace(x: string, w: string)
    requires AllSpace(w)
    ensures RStrip(x + w) == RStrip(x)
    decreases |w|
  {
    if w != [] {
      var n := |w| - 1;
      assert (x + w)[..|x + w| - 1] == x + w[..n];
      RStripTrailingSpace(x, w[..n]);
    } else {
      assert x + w == x;
    }
  }

  /** Trailing white space never survives `strip()`. */
  lemma {:induction false} StripTrailingSpace(x: string, w: string)
    requires AllSpace(w)
    ensures Strip(x + w) == Strip(x)
  {
    RStripTrailingSpace(x, w);
  }

  /** A prefix of a text strips to the same as a shorter prefix when only white space lies between their ends. */
  lemma {:induction false} StripBeforeSpace(t: string, k: nat, j: nat)
    requires k <= j <= |t| && AllSpace(t[k..j])
    ensures Strip(t[..j]) == Strip(t[..k])
  {
    assert t[..j] == t[..k] + t[k..j];
    StripTrailingSpace(t[..k], t[k..j]);
  }

  /** Leading white space never survives `lstrip()`. */
  lemma {:induction false} LStripLeadingSpace(w: string, x: string)
    requires AllSpace(w)
    ensures LStrip(w + x) == LStrip(x)
    decreases |w|
  {
    if w != [] {
      assert (w + x)[1..] == w[1..] + x;
      LStripLeadingSpace(w[1..], x);
    } else {
      assert w + x == x;
    }
  }

  /** Appending text after a non-blank prefix leaves the left strip of the prefix alone. */
  lemma {:induction false} LStripAppend(x: string, y: string)
    requires LStrip(x) != []
    ensures LStrip(x + y) == LStrip(x) + y
    decreases |x|
  {
    if IsSpace(x[0]) {
      assert LStrip(x + y) == LStrip(x[1..] + y) by {
        assert (x + y)[0] == x[0] && (x + y)[1..] == x[1..] + y;
      }
      LStripAppend(x[1..], y);
    } else {
      assert (x + y)[0] == x[0];
    }
  }

  /** Prepending text before a non-blank suffix leaves the right strip of the suffix alone. */
  lemma {:induction false} RStripPrepend(x: string, y: string)
    requires RStrip(y) != []
    ensures RStrip(x + y) == x + RStrip(y)
    decreases |y|
  {
    if IsSpace(y[|y| - 1]) {
      assert (x + y)[..|x + y| - 1] == x + y[..|y| - 1];
      RStripPrepend(x, y[..|y| - 1]);
    }
  }

  /** A text of white space only strips to nothing from either side. */
  lemma {:induction false} AllSpaceStrips(s: string)
    requires AllSpace(s)
    ensures LStrip(s) == [] && RStrip(s) == []
    decreases |s|
  {
    if s != [] {
      AllSpaceStrips(s[1..]);
      AllSpaceStrips(s[..|s| - 1]);
    }
  }

  /** A text that starts with a non-space character keeps it under `rstrip()`. */
  lemma {:induction false} RStripKeepsHead(s: string)
    requires s != [] && !IsSpace(s[0])
    ensures RStrip(s) != [] && RStrip(s)[0] == s[0]
    decreases |s|
  {
    if IsSpace(s[|s| - 1]) {
      RStripKeepsHead(s[..|s| - 1]);
    }
  }

  /** Stripping the left and the right side can be done in either order. */
  lemma {:induction false} StripCommutes(s: string)
    ensures LStrip(RStrip(s)) == RStrip(LStrip(s))
    decreases |s|
  {
    if s != [] && IsSpace(s[0]) {
      var t := s[1..];
      assert s == [s[0]] + t;
      if RStrip(t) == [] {
        assert AllSpace(s) by {
          RStripDropsSpace(t);
          assert t[|RStrip(t)|..] == t;
        }
        AllSpaceStrips(s);
        AllSpaceStrips(LStrip(s));
      } else {
        RStripPrepend([s[0]], t);
        StripCommutes(t);
        assert ([s[0]] + RStrip(t))[1..] == RStrip(t);
      }
    } else if s != [] {
      RStripKeepsHead(s);
    }
  }

  /** Stripping twice is stripping once. */
  lemma {:induction false} StripIdempotent(s: string)
    ensures Strip(Strip(s)) == Strip(s)
  {
    StripBounds(s);
    StripNoop(Strip(s));
  }

  /** The text before the first line break (the whole text when there is none). */
  function FirstLine(s: string): string
  {
    Split(s, "\n")[0]
  }

  /** Every text is its first line followed by nothing or by a line break and the rest. */
  lemma {:induction false} FirstLineSplit(s: string) returns (rest: string)
    ensures s == FirstLine(s) + rest && '\n' !in FirstLine(s)
    ensures rest == [] || rest[0] == '\n'
    decreases |s|
  {
    if s == [] {
      rest := [];
    } else if s[..1] == "\n" {
      rest := s;
    } else {
      var r := FirstLineSplit(s[1..]);
      rest := r;
      assert FirstLine(s) == [s[0]] + FirstLine(s[1..]);
    }
  }

  /** A text without line breaks is its own first line, whatever follows a line break after it. */
  lemma {:induction false} FirstLineOf(a: string, rest: string)
    requires '\n' !in a && (rest == [] || rest[0] == '\n')
    ensures FirstLine(a + rest) == a
    decreases |a|
  {
    var s := a + rest;
    if a == [] {
      if rest != [] {
        assert s[..1] == "\n";
      }
    } else {
      assert s[..1] != "\n" by {
        assert s[0] == a[0];
      }
      assert s[1..] == a[1..] + rest;
      FirstLineOf(a[1..], rest);
      assert [a[0]] + a[1..] == a;
    }
  }

  /** A text without line breaks is its own first line. */
  lemma {:induction false} NoBreakFirstLine(s: string)
    requires '\n' !in s
    ensures FirstLine(s) == s
  {
    FirstLineOf(s, []);
    assert s + [] == s;
  }

  /** The first line of a stripped text, stripped, is the stripped first line, unless that line is blank. */
  lemma {:induction false} FirstLineOfStripped(s: string)
    requires Strip(FirstLine(s)) != []
    ensures Strip(FirstLine(Strip(s))) == Strip(FirstLine(s))
  {
    var f := FirstLine(s);
    var rest := FirstLineSplit(s);
    assert LStrip(f) != [] by {
      StripCommutes(f);
    }
    if RStrip(rest) != [] {
      FirstLineBeforeText(f, rest);
    } else {
      FirstLineBeforeBlank(f, rest);
    }
  }

  /** A first line that is not blank, followed by a line break and more text, stays the first line through `strip()`. */
  lemma {:induction false} FirstLineBeforeText(f: string, rest: string)
    requires '\n' !in f && LStrip(f) != []
    requires RStrip(rest) != [] && rest[0] == '\n'
    ensures Strip(FirstLine(Strip(f + rest))) == Strip(f)
  {
    var rr := RStrip(rest);
    assert Strip(f + rest) == LStrip(f) + rr by {
      RStripPrepend(f, rest);
      LStripAppend(f, rr);
    }
    assert '\n' !in LStrip(f) by {
      assert LStrip(f) == f[|f| - |LStrip(f)|..];
    }
    FirstLineOf(LStrip(f), rr);
    StripCommutes(LStrip(f));
    StripCommutes(f);
  }

  /** A line followed only by white space is the first line of the stripped text, once stripped itself. */
  lemma {:induction false} FirstLineBeforeBlank(f: string, rest: string)
    requires '\n' !in f && RStrip(rest) == []
    ensures Strip(FirstLine(Strip(f + rest))) == Strip(f)
  {
    BlankTailStripped(f, rest);
    StripKeepsNoNewline(f);
    var core := Strip(f);
    assert core + [] == core;
    FirstLineOf(core, []);
    StripIdempotent(f);
  }

  /** White space after a text is gone once the text is stripped. */
  lemma {:induction false} BlankTailStripped(f: string, rest: string)
    requires RStrip(rest) == []
    ensures Strip(f + rest) == Strip(f)
  {
    RStripDropsSpace(rest);
    assert rest[|RStrip(rest)|..] == rest;
    RStripTrailingSpace(f, rest);
  }

  /** Stripping a text without line breaks leaves none. */
  lemma {:induction false} StripKeepsNoNewline(f: string)
    requires '\n' !in f
    ensures '\n' !in Strip(f)
  {
    var r := RStrip(f);
    var core := Strip(f);
    assert core == r[|r| - |core|..];
    forall i | 0 <= i < |core| ensures core[i] != '\n' {
      assert core[i] == r[|r| - |core| + i] == f[|r| - |core| + i];
    }
  }

  /** `sub in s` for strings. */
  predicate Contains(s: string, sub: string)
    decreases |s|
  {
    |sub| <= |s| && (s[..|sub|] == sub || (|s| > 0 && Contains(s[1..], sub)))
  }

  lemma {:induction false} ContainsChar(s: string, c: char)
    ensures Contains(s, [c]) <==> c in s
    decreases |s|
  {
    if |s| > 0 {
      ContainsChar(s[1..], c);
      assert s == [s[0]] + s[1..];
    }
  }

  /** `s.startswith(prefix)`. */
  predicate StartsWith(s: string, prefix: string)
  {
    |prefix| <= |s| && s[..|prefix|] == prefix
  }

  /**
   * `s.split(sep)` for a non-empty separator: the occurrences of `sep` are
   * found from left to right without overlapping, and the pieces between them
   * (empty ones included) are returned in order.
   */
  function Split(s: string, sep: string): (parts: seq<string>)
    requires sep != []
    ensures |parts| >= 1
    decreases |s|
  {
    if |s| < |sep| then [s]
    else if s[..|sep|] == sep then [""] + Split(s[|sep|..], sep)
    else
      var rest := Split(s[1..], sep);
      [[s[0]] + rest[0]] + rest[1..]
  }

  /** `sep.join(parts)`. */
  function Join(parts: seq<string>, sep: string): string
  {
    if |parts| == 0 then ""
    else if |parts| == 1 then parts[0]
    else parts[0] + sep + Join(parts[1..], sep)
  }

  lemma {:induction false} JoinConsChar(c: char, parts: seq<string>, sep: string)
    requires |parts| >= 1
    ensures Join([[c] + parts[0]] + parts[1..], sep) == [c] + Join(parts, sep)
  {
    var q := [[c] + parts[0]] + parts[1..];
    assert q[1..] == parts[1..];
  }

  /** Splitting and joining back with the same separator gives the text back. */
  lemma {:induction false} SplitJoin(s: string, sep: string)
    requires sep != []
    ensures Join(Split(s, sep), sep) == s
    decreases |s|
  {
    if |s| < |sep| {
    } else if s[..|sep|] == sep {
      SplitJoin(s[|sep|..], sep);
      SplitJoinAtSep(s, sep);
    } else {
      SplitJoin(s[1..], sep);
      SplitJoinAtChar(s, sep);
    }
  }

  /** A text starting with the separator joins back when the text after it does. */
  lemma {:induction false} SplitJoinAtSep(s: string, sep: string)
    requires sep != [] && |s| >= |sep| && s[..|sep|] == sep
    requires Join(Split(s[|sep|..], sep), sep) == s[|sep|..]
    ensures Join(Split(s, sep), sep) == s
  {
    var rest := Split(s[|sep|..], sep);
    var q := [""] + rest;
    assert Split(s, sep) == q;
    assert q[1..] == rest;
    assert s == sep + s[|sep|..];
  }

  /** A text not starting with the separator joins back when the text after its first character does. */
  lemma {:induction false} SplitJoinAtChar(s: string, sep: string)
    requires sep != [] && |s| >= |sep| && s[..|sep|] != sep
    requires Join(Split(s[1..], sep), sep) == s[1..]
    ensures Join(Split(s, sep), sep) == s
  {
    var rest := Split(s[1..], sep);
    assert Split(s, sep) == [[s[0]] + rest[0]] + rest[1..];
    JoinConsChar(s[0], rest, sep);
    assert s == [s[0]] + s[1..];
  }

  /** The separator occurs in the text exactly when splitting yields more than one piece. */
  lemma {:induction false} SplitCount(s: string, sep: string)
    requires sep != []
    ensures |Split(s, sep)| == 1 <==> !Contains(s, sep)
    ensures |Split(s, sep)| == 1 ==> Split(s, sep) == [s]
    decreases |s|
  {
    if |s| < |sep| {
    } else if s[..|sep|] == sep {
    } else {
      SplitCount(s[1..], sep);
      SplitJoin(s, sep);
    }
  }

  /** Splitting `x + c + y` on the character `c` that occurs nowhere else gives `[x, y]`. */
  lemma {:induction false} SplitAround(x: string, c: char, y: string)
    requires c !in x && c !in y
    ensures Split(x + [c] + y, [c]) == [x, y]
    decreases |x|
  {
    var s := x + [c] + y;
    if x == [] {
      assert s[..1] == [c] && s[1..] == y;
      ContainsChar(y, c);
      SplitCount(y, [c]);
    } else {
      assert s[..1] == [x[0]] && x[0] != c;
      assert s[1..] == x[1..] + [c] + y;
      SplitAround(x[1..], c, y);
      assert [x[0]] + x[1..] == x;
    }
  }

  /** Splitting on a character `c` cuts the text at its first `c`: the part before it, then the pieces of the rest. */
  lemma {:induction false} SplitAtFirst(x: string, c: char, y: string)
    requires c !in x
    ensures Split(x + [c] + y, [c]) == [x] + Split(y, [c])
    decreases |x|
  {
    var s := x + [c] + y;
    if x == [] {
      assert s[..1] == [c] && s[1..] == y;
    } else {
      assert s[..1] == [x[0]] && x[0] != c;
      assert s[1..] == x[1..] + [c] + y;
      SplitAtFirst(x[1..], c, y);
      assert [x[0]] + x[1..] == x;
    }
  }

  /** The number of leading non-space characters. */
  function WordLen(t: string): (n: nat)
    ensures n <= |t| && NoSpace(t[..n])
    ensures n == |t| || IsSpace(t[n])
    decreases |t|
  {
    if t == [] || IsSpace(t[0]) then 0 else 1 + WordLen(t[1..])
  }

  /** `s.split()` with no separator: the maximal runs of non-space characters. */
  function Words(s: string): seq<string>
    decreases |s|
  {
    var t := LStrip(s);
    if t == [] then []
    else
      var n := WordLen(t);
      [t[..n]] + Words(t[n..])
  }

  /** The first word of a non-blank text is non-empty and has no white space, and the rest is shorter. */
  lemma {:induction false} FirstWord(s: string) returns (word: string, rest: string)
    requires LStrip(s) != []
    ensures Words(s) == [word] + Words(rest)
    ensures word != [] && NoSpace(word) && |rest| < |s|
  {
    var t := LStrip(s);
    var n := WordLen(t);
    assert n > 0 by {
      assert !IsSpace(t[0]);
    }
    word, rest := t[..n], t[n..];
  }

  lemma {:induction false} AllWordsCons(word: string, others: seq<string>)
    requires word != [] && NoSpace(word)
    requires forall i :: 0 <= i < |others| ==> others[i] != [] && NoSpace(others[i])
    ensures var ws := [word] + others;
      forall i :: 0 <= i < |ws| ==> ws[i] != [] && NoSpace(ws[i])
  {
    var ws := [word] + others;
    forall i | 0 <= i < |ws| ensures ws[i] != [] && NoSpace(ws[i]) {
      if i > 0 {
        assert ws[i] == others[i - 1];
      }
    }
  }

  /** Every word `split()` yields is non-empty and has no white space. */
  lemma {:induction false} WordsAreWords(s: string)
    ensures forall i :: 0 <= i < |Words(s)| ==> Words(s)[i] != [] && NoSpace(Words(s)[i])
    decreases |s|
  {
    if LStrip(s) != [] {
      var word, rest := FirstWord(s);
      WordsAreWords(rest);
      AllWordsCons(word, Words(rest));
    }
  }

  /** `WordLen` is the only length that ends the leading run of non-space characters. */
  lemma {:induction false} WordLenOf(t: string, n: nat)
    requires n <= |t| && NoSpace(t[..n])
    requires n == |t| || IsSpace(t[n])
    ensures WordLen(t) == n
  {
    var m := WordLen(t);
    assert forall k :: 0 <= k < n ==> t[..n][k] == t[k];
    assert forall k :: 0 <= k < m ==> t[..m][k] == t[k];
  }

  /** A single non-empty, space-free word splits to itself. */
  lemma {:induction false} WordsSingle(w: string)
    requires w != [] && NoSpace(w)
    ensures Words(w) == [w]
  {
    assert LStrip(w) == w;
    assert w[..|w|] == w;
    WordLenOf(w, |w|);
    assert w[|w|..] == [];
  }

  /** A leading word followed by one space is split off as the first word. */
  lemma {:induction false} WordsCons(w: string, rest: string)
    requires w != [] && NoSpace(w)
    ensures Words(w + " " + rest) == [w] + Words(rest)
  {
    var j := w + " " + rest;
    assert LStrip(j) == j;
    assert j[..|w|] == w;
    WordLenOf(j, |w|);
    var tail := j[|w|..];
    assert tail == [' '] + rest;
    assert tail[1..] == rest;
    assert LStrip(tail) == LStrip(rest);
  }

  /** Joining non-empty, space-free words with single spaces and splitting again gives the words back. */
  lemma {:induction false} WordsOfJoin(ws: seq<string>)
    requires forall i :: 0 <= i < |ws| ==> ws[i] != [] && NoSpace(ws[i])
    ensures Words(Join(ws, " ")) == ws
    decreases |ws|
  {
    if |ws| == 1 {
      WordsSingle(ws[0]);
    } else if |ws| > 1 {
      var rest := ws[1..];
      forall i | 0 <= i < |rest| ensures rest[i] != [] && NoSpace(rest[i]) {
        assert rest[i] == ws[i + 1];
      }
      WordsOfJoin(rest);
      WordsOfJoinStep(ws);
    }
  }

  /** One more word in front of words that split back keeps them splitting back. */
  lemma {:induction false} WordsOfJoinStep(ws: seq<string>)
    requires |ws| > 1 && ws[0] != [] && NoSpace(ws[0])
    requires Words(Join(ws[1..], " ")) == ws[1..]
    ensures Words(Join(ws, " ")) == ws
  {
    assert Join(ws, " ") == ws[0] + " " + Join(ws[1..], " ");
    WordsCons(ws[0], Join(ws[1..], " "));
    assert ws == [ws[0]] + ws[1..];
  }

  // ----- ASCII case -----

  function UpperChar(c: char): char
  {
    if 'a' <= c <= 'z' then (c as int - 32) as char else c
  }

  function LowerChar(c: char): char
  {
    if 'A' <= c <= 'Z' then (c as int + 32) as char else c
  }

  /** `s.upper()` on ASCII letters. */
  function Upper(s: string): (r: string)
  {
    seq(|s|, i requires 0 <= i < |s| => UpperChar(s[i]))
  }

  /** `s.lower()` on ASCII letters. */
  function Lower(s: string): (r: string)
  {
    seq(|s|, i requires 0 <= i < |s| => LowerChar(s[i]))
  }

  /** `s.capitalize()` on ASCII letters: first letter upper case, the rest lower case. */
  function Capitalize(s: string): (r: string)
  {
    if s == [] then [] else [UpperChar(s[0])] + Lower(s[1..])
  }

  lemma {:induction false} LowerAppend(a: string, b: string)
    ensures Lower(a + b) == Lower(a) + Lower(b)
  {
  }

  /** Capitalising changes letter case only: the text is unchanged up to case and keeps its length. */
  lemma {:induction false} CapitalizeCaseOnly(s: string)
    ensures |Capitalize(s)| == |s|
    ensures Lower(Capitalize(s)) == Lower(s)
  {
    if s != [] {
      var r := Capitalize(s);
      forall i | 0 <= i < |s|
        ensures Lower(r)[i] == Lower(s)[i]
      {
        if i == 0 {
          assert r[0] == UpperChar(s[0]);
        } else {
          assert r[i] == Lower(s[1..])[i - 1] == LowerChar(s[i]);
        }
      }
    }
  }

  /** Two texts equal up to ASCII case agree on where their white space is. */
  lemma {:induction false} LowerKeepsSpaces(a: string, b: string)
    requires Lower(a) == Lower(b)
    ensures |a| == |b|
    ensures NoSpace(a) <==> NoSpace(b)
  {
    assert |a| == |Lower(a)|;
    forall i | 0 <= i < |a|
      ensures IsSpace(a[i]) <==> IsSpace(b[i])
    {
      assert Lower(a)[i] == Lower(b)[i];
    }
  }
}
