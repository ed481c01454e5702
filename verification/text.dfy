/** Python `str` operations used by the parser, on `string` = `seq<char>`:
    `str.split()` with no separator, `sep.join(...)`, `str.rstrip()`,
    substring search (`in`, `s.split(pat)[0]`) and single-character `replace`. */
module Text {
  import opened Py

  /** The characters for which Python's `str.isspace()` holds; `str.split()` and
      `str.rstrip()` without arguments split on and strip exactly these. */
  predicate IsSpace(c: char) {
    || c == ' '
    || ('\t' <= c <= '\r')
    || ('\U{1C}' <= c <= '\U{1F}')
    || c == '\U{85}' || c == '\U{A0}' || c == '\U{1680}'
    || ('\U{2000}' <= c <= '\U{200A}')
    || c == '\U{2028}' || c == '\U{2029}' || c == '\U{202F}' || c == '\U{205F}' || c == '\U{3000}'
  }

  /** An ASCII decimal digit (the model's reading of `str.isdigit()` on one character). */
  predicate IsDigit(c: char) {
    '0' <= c <= '9'
  }

  /** What `str.split()` can return as one token: non-empty and free of whitespace. */
  predicate IsWord(w: string) {
    |w| > 0 && forall i :: 0 <= i < |w| ==> !IsSpace(w[i])
  }

  /** Length of the leading run of whitespace. */
  function SpaceRun(s: string): (k: nat)
    ensures k <= |s|
    ensures forall i :: 0 <= i < k ==> IsSpace(s[i])
    ensures k < |s| ==> !IsSpace(s[k])
  {
    if |s| > 0 && IsSpace(s[0]) then 1 + SpaceRun(s[1..]) else 0
  }

  /** Length of the leading run of non-whitespace. */
  function WordRun(s: string): (k: nat)
    ensures k <= |s|
    ensures forall i :: 0 <= i < k ==> !IsSpace(s[i])
    ensures k < |s| ==> IsSpace(s[k])
  {
    if |s| > 0 && !IsSpace(s[0]) then 1 + WordRun(s[1..]) else 0
  }

  /** Python's `s.split()`: the maximal runs of non-whitespace, left to right. */
  function Split(s: string): (ts: seq<string>)
    ensures forall i :: 0 <= i < |ts| ==> IsWord(ts[i])
    decreases |s|
  {
    var rest := s[SpaceRun(s)..];
    if rest == [] then []
    else
      var k := WordRun(rest);
      [rest[..k]] + Split(rest[k..])
  }

  /** Python's `sep.join(ts)`. */
  function Join(sep: string, ts: seq<string>): (s: string)
    ensures |ts| > 0 ==> ts[0] <= s
    ensures |ts| > 1 ==> ts[0] + sep <= s
    ensures sep == "" ==> s == Concat(ts)
  {
    if |ts| == 0 then ""
    else if |ts| == 1 then ts[0]
    else ts[0] + sep + Join(sep, ts[1..])
  }

  /** Concatenation of a sequence of strings (`"".join(ts)`). */
  function Concat(ts: seq<string>): (s: string)
  {
    if |ts| == 0 then "" else ts[0] + Concat(ts[1..])
  }

  /** The characters of `s` that are not whitespace, in order. */
  function Squeeze(s: string): (r: string)
  {
    if |s| == 0 then ""
    else (if IsSpace(s[0]) then "" else [s[0]]) + Squeeze(s[1..])
  }

  /** Python's `s.rstrip()`: the longest prefix of `s` that does not end in whitespace
      and is followed only by whitespace. */
  function RStrip(s: string): (r: string)
    ensures r <= s
    ensures r == [] || !IsSpace(r[|r| - 1])
    ensures forall i :: |r| <= i < |s| ==> IsSpace(s[i])
  {
    if |s| > 0 && IsSpace(s[|s| - 1]) then RStrip(s[..|s| - 1]) else s
  }

  /** `pat` occurs in `s` starting at index `i`. */
  predicate OccursAt(s: string, pat: string, i: int) {
    0 <= i && i + |pat| <= |s| && s[i..i + |pat|] == pat
  }

  /** The first index at or after `i` where `pat` occurs in `s`, if any. */
  function FindFrom(s: string, pat: string, i: nat): (r: Option<nat>)
    requires i <= |s|
    ensures r.Some? ==> i <= r.value && OccursAt(s, pat, r.value)
    ensures r.Some? ==> forall j :: i <= j < r.value ==> !OccursAt(s, pat, j)
    ensures r.None? ==> forall j :: i <= j ==> !OccursAt(s, pat, j)
    decreases |s| - i
  {
    if i + |pat| > |s| then None
    else if s[i..i + |pat|] == pat then Some(i)
    else FindFrom(s, pat, i + 1)
  }

  /** Python's `s.find(pat)` (with `None` for -1): the first occurrence of `pat`. */
  function Find(s: string, pat: string): (r: Option<nat>)
    ensures r.Some? ==> OccursAt(s, pat, r.value)
    ensures r.Some? ==> forall j :: 0 <= j < r.value ==> !OccursAt(s, pat, j)
    ensures r.None? ==> forall j :: !OccursAt(s, pat, j)
  {
    FindFrom(s, pat, 0)
  }

  /** Python's `pat in s` on two strings. */
  function Contains(s: string, pat: string): (b: bool)
    ensures b <==> exists j :: OccursAt(s, pat, j)
  {
    Find(s, pat).Some?
  }

  /** Python's `s.replace(a, b)` for single characters `a` and `b`. */
  function ReplaceChar(s: string, a: char, b: char): (r: string)
    ensures |r| == |s|
    ensures forall i :: 0 <= i < |s| ==> r[i] == (if s[i] == a then b else s[i])
  {
    if |s| == 0 then "" else [if s[0] == a then b else s[0]] + ReplaceChar(s[1..], a, b)
  }

  /** A whitespace character in front of a string does not change its tokens. */
  lemma SplitLeadingSpace(c: char, s: string)
    requires IsSpace(c)
    ensures Split([c] + s) == Split(s)
  {
    assert ([c] + s)[1..] == s;
  }

  lemma {:induction false} WordRunOfWord(w: string, tail: string)
    requires forall i :: 0 <= i < |w| ==> !IsSpace(w[i])
    requires tail == [] || IsSpace(tail[0])
    ensures WordRun(w + tail) == |w|
  {
    if |w| > 0 {
      assert (w + tail)[1..] == w[1..] + tail;
      WordRunOfWord(w[1..], tail);
    } else {
      assert w + tail == tail;
    }
  }

  /** A word followed by nothing or by whitespace is the first token. */
  lemma SplitWordThen(w: string, tail: string)
    requires IsWord(w)
    requires tail == [] || IsSpace(tail[0])
    ensures Split(w + tail) == [w] + Split(tail)
  {
    var s := w + tail;
    assert !IsSpace(s[0]);
    assert SpaceRun(s) == 0;
    WordRunOfWord(w, tail);
    var k := WordRun(s);
    assert s[0..] == s;
    assert s[..k] == w;
    assert s[k..] == tail;
  }

  /** Two words around one whitespace character split into exactly those two words. */
  lemma SplitTwoWords(a: string, c: char, b: string)
    requires IsWord(a) && IsSpace(c) && IsWord(b)
    ensures Split(a + [c] + b) == [a, b]
  {
    assert a + [c] + b == a + ([c] + b);
    SplitWordThen(a, [c] + b);
    SplitLeadingSpace(c, b);
    assert b + [] == b;
    SplitWordThen(b, []);
    assert Split([]) == [];
  }

  /** Round trip: splitting words joined by single spaces gives the words back. */
  lemma {:induction false} SplitJoin(ts: seq<string>)
    requires forall i :: 0 <= i < |ts| ==> IsWord(ts[i])
    ensures Split(Join(" ", ts)) == ts
  {
    if |ts| == 0 {
    } else if |ts| == 1 {
      var w := ts[0];
      assert w + "" == w;
      SplitWordThen(w, "");
      assert Split("") == [];
      assert [w] == ts;
    } else {
      var w, tail := ts[0], ts[1..];
      var rest := Join(" ", tail);
      assert Join(" ", ts) == w + " " + rest;
      SplitWordSpace(w, rest);
      SplitJoin(tail);
      assert [w] + tail == ts;
    }
  }

  /** A word followed by one space is the first token; the rest is split on its own. */
  lemma SplitWordSpace(w: string, rest: string)
    requires IsWord(w)
    ensures Split(w + " " + rest) == [w] + Split(rest)
  {
    assert w + " " + rest == w + ([' '] + rest);
    SplitWordThen(w, [' '] + rest);
    SplitLeadingSpace(' ', rest);
  }

  lemma {:induction false} SqueezeAppend(a: string, b: string)
    ensures Squeeze(a + b) == Squeeze(a) + Squeeze(b)
  {
    if |a| > 0 {
      assert (a + b)[1..] == a[1..] + b;
      SqueezeAppend(a[1..], b);
    } else {
      assert a + b == b;
    }
  }

  lemma {:induction false} SqueezeAllSpace(s: string)
    requires forall i :: 0 <= i < |s| ==> IsSpace(s[i])
    ensures Squeeze(s) == ""
  {
    if |s| > 0 {
      SqueezeAllSpace(s[1..]);
    }
  }

  lemma {:induction false} SqueezeNoSpace(s: string)
    requires forall i :: 0 <= i < |s| ==> !IsSpace(s[i])
    ensures Squeeze(s) == s
  {
    if |s| > 0 {
      SqueezeNoSpace(s[1..]);
      assert s == [s[0]] + s[1..];
    }
  }

  /** `str.split()` loses nothing but whitespace: the tokens, concatenated, are the
      non-whitespace characters of the input in order. */
  lemma {:induction false} SplitKeepsText(s: string)
    ensures Concat(Split(s)) == Squeeze(s)
    decreases |s|
  {
    var rest := s[SpaceRun(s)..];
    SqueezeSkipsSpace(s);
    if rest != [] {
      var k := WordRun(rest);
      SqueezeKeepsWord(rest);
      ConcatSplitStep(s);
      SplitKeepsText(rest[k..]);
    }
  }

  /** Leading whitespace contributes nothing to the squeezed text. */
  lemma SqueezeSkipsSpace(s: string)
    ensures Squeeze(s) == Squeeze(s[SpaceRun(s)..])
  {
    var sp := SpaceRun(s);
    assert s == s[..sp] + s[sp..];
    SqueezeAppend(s[..sp], s[sp..]);
    SqueezeAllSpace(s[..sp]);
  }

  /** A leading word is kept whole by squeezing. */
  lemma SqueezeKeepsWord(rest: string)
    requires rest != [] && !IsSpace(rest[0])
    ensures WordRun(rest) > 0
    ensures Squeeze(rest) == rest[..WordRun(rest)] + Squeeze(rest[WordRun(rest)..])
  {
    var k := WordRun(rest);
    assert rest == rest[..k] + rest[k..];
    SqueezeAppend(rest[..k], rest[k..]);
    SqueezeNoSpace(rest[..k]);
  }

  /** One step of `Split`, seen through `Concat`. */
  lemma ConcatSplitStep(s: string)
    requires s[SpaceRun(s)..] != []
    ensures var rest := s[SpaceRun(s)..];
            Concat(Split(s)) == rest[..WordRun(rest)] + Concat(Split(rest[WordRun(rest)..]))
  {
    var rest := s[SpaceRun(s)..];
    var k := WordRun(rest);
    var ts := Split(s);
    assert ts == [rest[..k]] + Split(rest[k..]);
    assert ts[1..] == Split(rest[k..]);
  }
}
