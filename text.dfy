/**
  The two string primitives the client relies on: Python's `str.split()` with no
  argument, which breaks a string into its maximal runs of non-whitespace
  characters, and `' '.join(...)`, which glues strings together with single spaces.
*/
module Text {

  /** The characters Python's `str.isspace()` accepts, which are the separators of `str.split()`. */
  predicate IsWhitespace(c: char) {
    || ('\t' <= c <= '\r')
    || ('\U{1C}' <= c <= '\U{1F}')
    || c == ' '
    || c == '\U{85}'
    || c == '\U{A0}'
    || c == '\U{1680}'
    || ('\U{2000}' <= c <= '\U{200A}')
    || c == '\U{2028}'
    || c == '\U{2029}'
    || c == '\U{202F}'
    || c == '\U{205F}'
    || c == '\U{3000}'
  }

  /** A word is a non-empty string without whitespace: what `str.split()` can return. */
  predicate IsWord(w: string) {
    |w| > 0 && forall i :: 0 <= i < |w| ==> !IsWhitespace(w[i])
  }

  predicate AllWords(ws: seq<string>) {
    forall i :: 0 <= i < |ws| ==> IsWord(ws[i])
  }

  /** Length of the longest prefix of `s` that holds no whitespace. */
  function RunLength(s: string): (n: nat)
    ensures n <= |s|
    ensures forall i :: 0 <= i < n ==> !IsWhitespace(s[i])
    ensures n < |s| ==> IsWhitespace(s[n])
  {
    if s == [] || IsWhitespace(s[0]) then 0 else 1 + RunLength(s[1..])
  }

  /** `s.split()`: the maximal runs of non-whitespace characters of `s`, in order. */
  function Words(s: string): (ws: seq<string>)
    ensures AllWords(ws)
    decreases |s|
  {
    if s == [] then []
    else if IsWhitespace(s[0]) then Words(s[1..])
    else
      var n := RunLength(s);
      [s[..n]] + Words(s[n..])
  }

  /** `' '.join(xs)`. */
  function JoinSpaced(xs: seq<string>): string {
    if xs == [] then ""
    else if |xs| == 1 then xs[0]
    else xs[0] + " " + JoinSpaced(xs[1..])
  }

  /** `' '.join(s.split())`: `s` with every whitespace run collapsed to one space and the ends trimmed. */
  function Normalise(s: string): string {
    JoinSpaced(Words(s))
  }

  /** The words of every string of `xs`, in order. */
  function WordsOfEach(xs: seq<string>): seq<string> {
    if xs == [] then [] else Words(xs[0]) + WordsOfEach(xs[1..])
  }

  function Flatten<T>(xss: seq<seq<T>>): seq<T> {
    if xss == [] then [] else xss[0] + Flatten(xss[1..])
  }

  /**
    A non-empty string whose separators are single spaces: no leading or trailing
    whitespace, and every whitespace character is a space followed by a non-whitespace one.
  */
  predicate SingleSpaced(s: string) {
    && s != []
    && !IsWhitespace(s[0])
    && !IsWhitespace(s[|s| - 1])
    && forall i :: 0 <= i < |s| - 1 && IsWhitespace(s[i]) ==> s[i] == ' ' && !IsWhitespace(s[i + 1])
  }

  /** A string has no words exactly when it is empty or all whitespace. */
  lemma {:induction false} NoWordsIffBlank(s: string)
    ensures Words(s) == [] <==> forall i :: 0 <= i < |s| ==> IsWhitespace(s[i])
    decreases |s|
  {
    if s != [] && IsWhitespace(s[0]) {
      NoWordsIffBlank(s[1..]);
      forall i | 0 < i < |s| ensures s[i] == s[1..][i - 1] { }
    }
  }

  /** A whitespace character ends the first run: the run of `x + [c] + y` is that of `x`. */
  lemma {:induction false} RunLengthAcross(x: string, c: char, y: string)
    requires IsWhitespace(c)
    ensures RunLength(x + [c] + y) == RunLength(x)
    decreases |x|
  {
    if x != [] && !IsWhitespace(x[0]) {
      assert (x + [c] + y)[1..] == x[1..] + [c] + y;
      RunLengthAcross(x[1..], c, y);
    }
  }

  /** Splitting at a whitespace character: the words of `x + [c] + y` are those of `x` then those of `y`. */
  lemma {:induction false} WordsAcross(x: string, c: char, y: string)
    requires IsWhitespace(c)
    ensures Words(x + [c] + y) == Words(x) + Words(y)
    decreases |x|
  {
    var s := x + [c] + y;
    if x == [] {
      assert s[1..] == y;
    } else if IsWhitespace(x[0]) {
      assert s[1..] == x[1..] + [c] + y;
      WordsAcross(x[1..], c, y);
    } else {
      RunLengthAcross(x, c, y);
      var n := RunLength(x);
      assert s[..n] == x[..n];
      assert s[n..] == x[n..] + [c] + y;
      WordsAcross(x[n..], c, y);
    }
  }

  /** A word splits into itself. */
  lemma WordsOfWord(w: string)
    requires IsWord(w)
    ensures Words(w) == [w]
  {
    assert RunLength(w) == |w|;
    assert w[..|w|] == w && w[|w|..] == [];
    assert Words(w) == [w[..|w|]] + Words(w[|w|..]);
  }

  /** The words of a space-joined list are the words of its elements, in order. */
  lemma {:induction false} WordsOfJoin(xs: seq<string>)
    ensures Words(JoinSpaced(xs)) == WordsOfEach(xs)
  {
    if xs == [] {
    } else if |xs| == 1 {
      assert xs[1..] == [];
    } else {
      var rest := JoinSpaced(xs[1..]);
      assert xs[0] + " " + rest == xs[0] + [' '] + rest;
      WordsAcross(xs[0], ' ', rest);
      WordsOfJoin(xs[1..]);
    }
  }

  lemma {:induction false} WordsOfEachWords(ws: seq<string>)
    requires AllWords(ws)
    ensures WordsOfEach(ws) == ws
  {
    if ws != [] {
      WordsOfWord(ws[0]);
      WordsOfEachWords(ws[1..]);
    }
  }

  /** Round trip: splitting a space-joined list of words gives the list back. */
  lemma SplitOfJoin(ws: seq<string>)
    requires AllWords(ws)
    ensures Words(JoinSpaced(ws)) == ws
  {
    WordsOfJoin(ws);
    WordsOfEachWords(ws);
  }

  /** Normalising keeps the words, and so is idempotent. */
  lemma NormaliseKeepsWords(s: string)
    ensures Words(Normalise(s)) == Words(s)
    ensures Normalise(Normalise(s)) == Normalise(s)
  {
    SplitOfJoin(Words(s));
  }

  /** Joining a non-empty list of words yields a single-spaced string. */
  lemma {:induction false} JoinIsSingleSpaced(ws: seq<string>)
    requires ws != [] && AllWords(ws)
    ensures SingleSpaced(JoinSpaced(ws))
  {
    if |ws| > 1 {
      JoinIsSingleSpaced(ws[1..]);
      var w, t := ws[0], JoinSpaced(ws[1..]);
      var s := w + " " + t;
      assert IsWord(w);
      forall i | 0 <= i < |s| - 1 && IsWhitespace(s[i])
        ensures s[i] == ' ' && !IsWhitespace(s[i + 1])
      {
        if i > |w| {
          assert s[i] == t[i - |w| - 1] && s[i + 1] == t[i - |w|];
        }
      }
    }
  }

  /** `' '.join` of two non-empty lists is the two joins glued by one space. */
  lemma {:induction false} JoinAppend(a: seq<string>, b: seq<string>)
    requires a != [] && b != []
    ensures JoinSpaced(a + b) == JoinSpaced(a) + " " + JoinSpaced(b)
  {
    if |a| > 1 {
      assert (a + b)[1..] == a[1..] + b;
      JoinAppend(a[1..], b);
    }
  }
}
