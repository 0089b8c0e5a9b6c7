/** The pieces of JavaScript's string and array semantics that the application relies on:
    the white-space class used by `\s` and `String.prototype.trim`, `trim`, the global
    replacement `replace(/\s+/g, c)`, `includes`, `join`, `Array.prototype.filter` and the
    decimal rendering of a number inside a template literal.  Strings are sequences of
    characters (code points), not of UTF-16 code units. */
module JsText {

  datatype Option<+T> = None | Some(value: T)

  /** White space as ECMAScript defines it for `\s` and `trim`: WhiteSpace and LineTerminator. */
  predicate IsSpace(c: char) {
    || c == ' ' || c == '\t' || c == '\n' || c == '\r'
    || c == '\U{000B}' || c == '\U{000C}' || c == '\U{00A0}' || c == '\U{1680}'
    || ('\U{2000}' <= c <= '\U{200A}')
    || c == '\U{2028}' || c == '\U{2029}' || c == '\U{202F}' || c == '\U{205F}'
    || c == '\U{3000}' || c == '\U{FEFF}'
  }

  predicate IsDigit(c: char) {
    '0' <= c <= '9'
  }

  predicate AllDigits(s: string) {
    forall i :: 0 <= i < |s| ==> IsDigit(s[i])
  }

  predicate NoSpace(s: string) {
    forall i :: 0 <= i < |s| ==> !IsSpace(s[i])
  }

  predicate AllSpace(s: string) {
    forall i :: 0 <= i < |s| ==> IsSpace(s[i])
  }

  /** No white space at either end. */
  predicate Trimmed(s: string) {
    s == [] || (!IsSpace(s[0]) && !IsSpace(s[|s| - 1]))
  }

  /** No two white-space characters next to each other. */
  predicate NoDoubleSpace(s: string) {
    forall i :: 0 <= i < |s| - 1 ==> !(IsSpace(s[i]) && IsSpace(s[i + 1]))
  }

  /** The number of white-space characters `s` starts with. */
  function LeadingSpaces(s: string): (n: nat)
    ensures n <= |s|
    ensures n < |s| ==> !IsSpace(s[n])
  {
    if s != [] && IsSpace(s[0]) then 1 + LeadingSpaces(s[1..]) else 0
  }

  /** The number of white-space characters `s` ends with. */
  function TrailingSpaces(s: string): (n: nat)
    ensures n <= |s|
    ensures n < |s| ==> !IsSpace(s[|s| - 1 - n])
  {
    if s != [] && IsSpace(s[|s| - 1]) then 1 + TrailingSpaces(s[..|s| - 1]) else 0
  }

  /** `s.trimStart()`. */
  function TrimStart(s: string): string
  {
    s[LeadingSpaces(s)..]
  }

  /** `s.trimEnd()`. */
  function TrimEnd(s: string): string
  {
    s[..|s| - TrailingSpaces(s)]
  }

  /** `s.trim()`. */
  function Trim(s: string): string
  {
    TrimEnd(TrimStart(s))
  }

  /** What `trimStart` drops is white space, and what it keeps does not start with any. */
  lemma {:induction false} LeadingSpacesAreSpaces(s: string)
    ensures AllSpace(s[..LeadingSpaces(s)])
  {
    if s != [] && IsSpace(s[0]) {
      LeadingSpacesAreSpaces(s[1..]);
      assert s[..LeadingSpaces(s)] == [s[0]] + s[1..][..LeadingSpaces(s[1..])];
    }
  }

  lemma {:induction false} TrailingSpacesAreSpaces(s: string)
    ensures AllSpace(s[|s| - TrailingSpaces(s)..])
  {
    if s != [] && IsSpace(s[|s| - 1]) {
      var p := s[..|s| - 1];
      TrailingSpacesAreSpaces(p);
      assert s[|s| - TrailingSpaces(s)..] == p[|p| - TrailingSpaces(p)..] + [s[|s| - 1]];
    }
  }

  /** Trimming removes exactly the white space at both ends: what remains has no white space
      at either end and is the slice of the input between an all-space prefix and an
      all-space suffix. */
  lemma {:induction false} TrimIsCentralSlice(s: string)
    ensures Trimmed(Trim(s))
    ensures Trim(s) == s[LeadingSpaces(s)..LeadingSpaces(s) + |Trim(s)|]
    ensures AllSpace(s[..LeadingSpaces(s)]) && AllSpace(s[LeadingSpaces(s) + |Trim(s)|..])
  {
    var t := TrimStart(s);
    var r := Trim(s);
    if r != [] {
      assert r[0] == t[0];
      assert r[|r| - 1] == t[|t| - 1 - TrailingSpaces(t)];
    }
    LeadingSpacesAreSpaces(s);
    TrimDropsOnlySpaceAtEnd(s);
  }

  lemma TrimDropsOnlySpaceAtEnd(s: string)
    ensures AllSpace(s[LeadingSpaces(s) + |Trim(s)|..])
  {
    var t := TrimStart(s);
    TrailingSpacesAreSpaces(t);
    assert s[LeadingSpaces(s) + |Trim(s)|..] == t[|t| - TrailingSpaces(t)..];
  }

  lemma TrimEmpty(s: string)
    ensures Trim(s) == [] <==> AllSpace(s)
  {
    var n := LeadingSpaces(s);
    LeadingSpacesAreSpaces(s);
    if n == |s| {
      assert s[..n] == s;
    } else {
      var t := TrimStart(s);
      TrailingSpacesAreSpaces(t);
      assert t[0] == s[n];
      assert Trim(s)[0] == s[n];
    }
  }

  lemma TrimTwice(s: string)
    ensures Trim(Trim(s)) == Trim(s)
  {
    TrimIsCentralSlice(s);
    var r := Trim(s);
    if r != [] {
      assert LeadingSpaces(r) == 0;
      assert TrailingSpaces(r) == 0;
    }
  }

  lemma TrimChars(s: string)
    ensures forall c :: c in Trim(s) ==> c in s
  {
    TrimIsCentralSlice(s);
    var r := Trim(s);
    var a := LeadingSpaces(s);
    forall c | c in r ensures c in s {
      var i :| 0 <= i < |r| && r[i] == c;
      assert s[a + i] == c;
    }
  }

  /** `s.replace(/\s+/g, rep)`: every maximal run of white space becomes one `rep`. */
  function CollapseSpaces(s: string, rep: char): (r: string)
    ensures |r| <= |s|
    decreases |s|
  {
    if s == [] then []
    else if IsSpace(s[0]) then [rep] + CollapseSpaces(TrimStart(s), rep)
    else [s[0]] + CollapseSpaces(s[1..], rep)
  }

  /** The longest prefix of `s` without white space. */
  function WordPrefix(s: string): (w: string)
    ensures w <= s && NoSpace(w)
    ensures |w| == |s| || IsSpace(s[|w|])
  {
    if s == [] || IsSpace(s[0]) then [] else [s[0]] + WordPrefix(s[1..])
  }

  /** The white-space separated words of `s`, in order (the reference the normalisation is
      measured against). */
  function Words(s: string): (ws: seq<string>)
    decreases |s|
  {
    var t := TrimStart(s);
    if t == [] then []
    else
      var w := WordPrefix(t);
      assert |w| > 0 by { assert w[0] == t[0]; }
      [w] + Words(t[|w|..])
  }

  /** `parts.join(sep)`. */
  function JoinWith(parts: seq<string>, sep: string): (r: string)
  {
    if parts == [] then []
    else if |parts| == 1 then parts[0]
    else parts[0] + sep + JoinWith(parts[1..], sep)
  }

  /** `parts.join('')`. */
  function Concat(parts: seq<string>): (r: string)
  {
    if parts == [] then [] else parts[0] + Concat(parts[1..])
  }

  /** `s.includes(t)`. */
  predicate Includes(s: string, t: string)
    decreases |s|
  {
    t <= s || (s != [] && Includes(s[1..], t))
  }

  /** `arr.filter(keep)`. */
  function Filter<T>(keep: T -> bool, s: seq<T>): (r: seq<T>)
    ensures |r| <= |s|
  {
    if s == [] then []
    else if keep(s[0]) then [s[0]] + Filter(keep, s[1..])
    else Filter(keep, s[1..])
  }

  /** `filter` keeps exactly the elements that pass the test. */
  lemma {:induction false} FilterMembers<T>(keep: T -> bool, s: seq<T>)
    ensures forall x :: x in Filter(keep, s) <==> x in s && keep(x)
  {
    if s != [] {
      FilterMembers(keep, s[1..]);
      assert s == [s[0]] + s[1..];
    }
  }

  /** `filter` distributes over concatenation. */
  lemma {:induction false} FilterAppend<T>(keep: T -> bool, a: seq<T>, b: seq<T>)
    ensures Filter(keep, a + b) == Filter(keep, a) + Filter(keep, b)
  {
    if a != [] {
      assert (a + b)[1..] == a[1..] + b;
      FilterAppend(keep, a[1..], b);
    } else {
      assert a + b == b;
    }
  }

  /** `arr.map(f)`. */
  function Map<T, U>(f: T -> U, s: seq<T>): (r: seq<U>)
    ensures |r| == |s|
    ensures forall i :: 0 <= i < |s| ==> r[i] == f(s[i])
  {
    if s == [] then [] else [f(s[0])] + Map(f, s[1..])
  }

  /** `map` distributes over concatenation. */
  lemma {:induction false} MapAppend<T, U>(f: T -> U, a: seq<T>, b: seq<T>)
    ensures Map(f, a + b) == Map(f, a) + Map(f, b)
  {
    if a != [] {
      assert (a + b)[1..] == a[1..] + b;
      MapAppend(f, a[1..], b);
    } else {
      assert a + b == b;
    }
  }

  lemma MapSnoc<T, U>(f: T -> U, s: seq<T>, x: T)
    ensures Map(f, s + [x]) == Map(f, s) + [f(x)]
  {
    MapAppend(f, s, [x]);
  }

  /** Every element of a mapped list is the function's value of some input element. */
  lemma MapMember<T, U>(f: T -> U, s: seq<T>, y: U)
    requires y in Map(f, s)
    ensures exists k :: 0 <= k < |s| && y == f(s[k])
  {
    var k :| 0 <= k < |Map(f, s)| && Map(f, s)[k] == y;
  }

  /** `String(n)` for a non-negative integer: its decimal digits, no leading zero. */
  function NatToString(n: nat): (r: string)
    ensures |r| > 0 && AllDigits(r)
    ensures |r| > 1 ==> r[0] != '0'
  {
    if n < 10 then [DigitChar(n)] else NatToString(n / 10) + [DigitChar(n % 10)]
  }

  function DigitChar(d: nat): (c: char)
    requires d < 10
    ensures IsDigit(c)
  {
    ('0' as int + d) as char
  }

  /** The words of all the strings in `parts`, in order. */
  function WordsOfAll(parts: seq<string>): (ws: seq<string>)
  {
    if parts == [] then [] else Words(parts[0]) + WordsOfAll(parts[1..])
  }

  lemma {:induction false} LeadingSpacesAfterSpaces(x: string, y: string)
    requires AllSpace(x)
    ensures LeadingSpaces(x + y) == |x| + LeadingSpaces(y)
    decreases |x|
  {
    if x == [] {
      assert x + y == y;
    } else {
      assert (x + y)[1..] == x[1..] + y;
      LeadingSpacesAfterSpaces(x[1..], y);
    }
  }

  lemma {:induction false} LeadingSpacesAppend(x: string, y: string)
    requires LeadingSpaces(x) < |x|
    ensures LeadingSpaces(x + y) == LeadingSpaces(x)
    decreases |x|
  {
    if IsSpace(x[0]) {
      assert (x + y)[1..] == x[1..] + y;
      LeadingSpacesAppend(x[1..], y);
    }
  }

  lemma {:induction false} TrailingSpacesBeforeSpaces(x: string, y: string)
    requires AllSpace(y)
    ensures TrailingSpaces(x + y) == |y| + TrailingSpaces(x)
    decreases |y|
  {
    if y == [] {
      assert x + y == x;
    } else {
      assert (x + y)[..|x + y| - 1] == x + y[..|y| - 1];
      TrailingSpacesBeforeSpaces(x, y[..|y| - 1]);
    }
  }

  lemma {:induction false} TrailingSpacesAppend(x: string, y: string)
    requires TrailingSpaces(y) < |y|
    ensures TrailingSpaces(x + y) == TrailingSpaces(y)
    decreases |y|
  {
    if IsSpace(y[|y| - 1]) {
      assert (x + y)[..|x + y| - 1] == x + y[..|y| - 1];
      TrailingSpacesAppend(x, y[..|y| - 1]);
    }
  }

  lemma {:induction false} WordPrefixBeforeSpace(x: string, y: string)
    requires NoSpace(x) && y != [] && IsSpace(y[0])
    ensures WordPrefix(x + y) == x
    decreases |x|
  {
    if x == [] {
      assert x + y == y;
    } else {
      assert (x + y)[1..] == x[1..] + y;
      WordPrefixBeforeSpace(x[1..], y);
    }
  }

  lemma {:induction false} WordPrefixAppend(x: string, y: string)
    requires |WordPrefix(x)| < |x|
    ensures WordPrefix(x + y) == WordPrefix(x)
    decreases |x|
  {
    if !IsSpace(x[0]) {
      assert (x + y)[1..] == x[1..] + y;
      WordPrefixAppend(x[1..], y);
    }
  }

  /** A string is word-free exactly when it is all white space. */
  lemma WordsEmpty(s: string)
    ensures Words(s) == [] <==> AllSpace(s)
  {
    LeadingSpacesAreSpaces(s);
    if LeadingSpaces(s) == |s| {
      assert s[..LeadingSpaces(s)] == s;
    }
  }

  /** Every word is non-empty and free of white space. */
  lemma {:induction false} WordsAreWords(s: string)
    ensures forall k :: 0 <= k < |Words(s)| ==> |Words(s)[k]| > 0 && NoSpace(Words(s)[k])
    decreases |s|
  {
    var t := TrimStart(s);
    if t != [] {
      var w := WordPrefix(t);
      assert w[0] == t[0];
      WordsAreWords(t[|w|..]);
    }
  }

  /** A prefix without white space is copied unchanged by `CollapseSpaces`. */
  lemma {:induction false} CollapseNoSpacePrefix(s: string, k: nat, rep: char)
    requires k <= |s| && NoSpace(s[..k])
    ensures CollapseSpaces(s, rep) == s[..k] + CollapseSpaces(s[k..], rep)
    decreases k
  {
    if k == 0 {
      assert s[..0] == [] && s[0..] == s;
    } else {
      var tail := s[1..];
      assert !IsSpace(s[..k][0]);
      assert tail[..k - 1] == s[..k][1..];
      CollapseNoSpacePrefix(tail, k - 1, rep);
      assert tail[k - 1..] == s[k..];
      assert [s[0]] + tail[..k - 1] == s[..k];
    }
  }

  /** A word at the start of `s` is copied unchanged by `CollapseSpaces`. */
  lemma CollapseWord(s: string, rep: char)
    ensures CollapseSpaces(s, rep) == WordPrefix(s) + CollapseSpaces(s[|WordPrefix(s)|..], rep)
  {
    var w := WordPrefix(s);
    assert s[..|w|] == w;
    CollapseNoSpacePrefix(s, |w|, rep);
  }

  lemma CollapseStart(s: string, rep: char)
    requires s != [] && !IsSpace(s[0])
    ensures CollapseSpaces(s, rep) != [] && CollapseSpaces(s, rep)[0] == s[0]
  {
  }

  lemma CollapseAllSpace(s: string)
    requires AllSpace(s)
    ensures AllSpace(CollapseSpaces(s, ' '))
  {
    if s != [] {
      LeadingSpacesAfterSpaces(s, []);
      assert s + [] == s;
    }
  }

  lemma TrimEndBeforeSpaces(x: string, y: string)
    requires AllSpace(y)
    ensures TrimEnd(x + y) == TrimEnd(x)
  {
    TrailingSpacesBeforeSpaces(x, y);
    assert (x + y)[..|x| - TrailingSpaces(x)] == x[..|x| - TrailingSpaces(x)];
  }

  lemma TrimEndAppend(x: string, y: string)
    requires TrimEnd(y) != []
    ensures TrimEnd(x + y) == x + TrimEnd(y)
  {
    TrailingSpacesAppend(x, y);
  }

  lemma TrimStartAfterSpaces(x: string, y: string)
    requires AllSpace(x)
    ensures TrimStart(x + y) == TrimStart(y)
  {
    LeadingSpacesAfterSpaces(x, y);
    assert (x + y)[|x| + LeadingSpaces(y)..] == y[LeadingSpaces(y)..];
  }

  lemma TrimStartAppend(x: string, y: string)
    requires TrimStart(x) != []
    ensures TrimStart(x + y) == TrimStart(x) + y
  {
    LeadingSpacesAppend(x, y);
    assert (x + y)[LeadingSpaces(x)..] == x[LeadingSpaces(x)..] + y;
  }

  lemma TrimStartOfWord(s: string)
    requires s == [] || !IsSpace(s[0])
    ensures TrimStart(s) == s
  {
  }

  lemma WordsUnfold(s: string)
    requires s != [] && !IsSpace(s[0])
    ensures |WordPrefix(s)| > 0
    ensures Words(s) == [WordPrefix(s)] + Words(s[|WordPrefix(s)|..])
  {
    TrimStartOfWord(s);
    assert WordPrefix(s)[0] == s[0];
  }

  lemma WordsAfterSpaces(s: string)
    ensures Words(TrimStart(s)) == Words(s)
  {
    LeadingSpacesAreSpaces(s);
    TrimStartAfterSpaces(s[..LeadingSpaces(s)], TrimStart(s));
    assert s[..LeadingSpaces(s)] + TrimStart(s) == s;
  }

  lemma JoinWithNonEmpty(ws: seq<string>, sep: string)
    requires ws != [] && |ws[0]| > 0
    ensures JoinWith(ws, sep) != []
  {
    if |ws| > 1 {
      assert JoinWith(ws, sep) == ws[0] + sep + JoinWith(ws[1..], sep);
    }
  }

  lemma CollapseTrimEndLastWord(w: string, rest: string)
    requires |w| > 0 && NoSpace(w) && AllSpace(rest)
    ensures TrimEnd(w + CollapseSpaces(rest, ' ')) == w
  {
    CollapseAllSpace(rest);
    TrimEndBeforeSpaces(w, CollapseSpaces(rest, ' '));
    assert TrailingSpaces(w) == 0;
  }

  lemma CollapseTrimEndStep(w: string, tail: string, ws: seq<string>, x: string, vs: seq<string>)
    requires |w| > 0 && NoSpace(w)
    requires ws != [] && |ws[0]| > 0
    requires TrimEnd(tail) == JoinWith(ws, " ")
    requires x == w + [' '] + tail && vs == [w] + ws
    ensures TrimEnd(x) == JoinWith(vs, " ")
  {
    JoinWithNonEmpty(ws, " ");
    TrimEndAppend(w + [' '], tail);
    assert JoinWith([w] + ws, " ") == w + " " + JoinWith(ws, " ");
  }

  lemma CollapseAfterSpace(s: string)
    requires s != [] && IsSpace(s[0])
    ensures CollapseSpaces(s, ' ') == [' '] + CollapseSpaces(TrimStart(s), ' ')
  {
  }

  /** The rest of `s` after its first word. */
  function AfterWord(s: string): string
  {
    s[|WordPrefix(s)|..]
  }

  lemma CollapseTrimEndOneWord(s: string)
    requires s != [] && !IsSpace(s[0]) && AllSpace(AfterWord(s))
    ensures TrimEnd(CollapseSpaces(s, ' ')) == JoinWith(Words(s), " ")
  {
    WordsUnfold(s);
    CollapseWord(s, ' ');
    WordsEmpty(AfterWord(s));
    CollapseTrimEndLastWord(WordPrefix(s), AfterWord(s));
  }

  lemma CollapseMoreWords(s: string)
    requires s != [] && !IsSpace(s[0]) && !AllSpace(AfterWord(s))
    ensures CollapseSpaces(s, ' ')
         == WordPrefix(s) + [' '] + CollapseSpaces(TrimStart(AfterWord(s)), ' ')
  {
    var w := WordPrefix(s);
    var rest := AfterWord(s);
    assert rest != [];
    assert |w| < |s| && rest[0] == s[|w|];
    CollapseWord(s, ' ');
    CollapseAfterSpace(rest);
  }

  lemma WordsMoreWords(s: string)
    requires s != [] && !IsSpace(s[0]) && !AllSpace(AfterWord(s))
    ensures |WordPrefix(s)| > 0 && NoSpace(WordPrefix(s))
    ensures Words(s) == [WordPrefix(s)] + Words(TrimStart(AfterWord(s)))
    ensures Words(TrimStart(AfterWord(s))) != []
    ensures |Words(TrimStart(AfterWord(s)))[0]| > 0
  {
    WordsUnfold(s);
    var rest := AfterWord(s);
    WordsAfterSpaces(rest);
    WordsEmpty(rest);
    WordsAreWords(TrimStart(rest));
  }

  lemma CollapseTrimEndMoreWords(s: string)
    requires s != [] && !IsSpace(s[0]) && !AllSpace(AfterWord(s))
    requires var r := TrimStart(AfterWord(s));
      TrimEnd(CollapseSpaces(r, ' ')) == JoinWith(Words(r), " ")
    ensures TrimEnd(CollapseSpaces(s, ' ')) == JoinWith(Words(s), " ")
  {
    var r := TrimStart(AfterWord(s));
    CollapseMoreWords(s);
    WordsMoreWords(s);
    CollapseTrimEndStep(WordPrefix(s), CollapseSpaces(r, ' '), Words(r), CollapseSpaces(s, ' '), Words(s));
  }

  /** The heart of the normalisation: on a string that does not start with white space,
      collapsing white-space runs and then trimming the end gives its words joined by single
      spaces. */
  lemma {:induction false} CollapseTrimEnd(s: string)
    requires s == [] || !IsSpace(s[0])
    ensures TrimEnd(CollapseSpaces(s, ' ')) == JoinWith(Words(s), " ")
    decreases |s|
  {
    if s != [] {
      WordsUnfold(s);
      if AllSpace(AfterWord(s)) {
        CollapseTrimEndOneWord(s);
      } else {
        CollapseTrimEnd(TrimStart(AfterWord(s)));
        CollapseTrimEndMoreWords(s);
      }
    }
  }

  /** `s.replace(/\s+/g, ' ').trim()` is the words of `s` joined by single spaces. */
  lemma CollapseThenTrim(s: string)
    ensures Trim(CollapseSpaces(s, ' ')) == JoinWith(Words(s), " ")
  {
    var t := TrimStart(s);
    CollapseTrimEnd(t);
    TrimStartOfWord(t);
    assert Words(t) == Words(s);
    if t != [] {
      CollapseStart(t, ' ');
    }
    TrimStartOfWord(CollapseSpaces(t, ' '));
    if s != [] && IsSpace(s[0]) {
      assert CollapseSpaces(s, ' ') == [' '] + CollapseSpaces(t, ' ');
      TrimStartAfterSpaces([' '], CollapseSpaces(t, ' '));
    } else {
      assert t == s;
    }
  }

  lemma WordsAcrossBlank(a: string, c: char, b: string)
    requires IsSpace(c) && AllSpace(a)
    ensures Words(a) == [] && Words(a + [c] + b) == Words(b)
  {
    WordsEmpty(a);
    assert AllSpace(a + [c]);
    TrimStartAfterSpaces(a + [c], b);
    WordsAfterSpaces(a + [c] + b);
    WordsAfterSpaces(b);
  }

  lemma WordsAcrossWord(t: string, c: char, b: string)
    requires IsSpace(c) && t != [] && !IsSpace(t[0])
    ensures Words(t) == [WordPrefix(t)] + Words(AfterWord(t))
    ensures Words(t + [c] + b) == [WordPrefix(t)] + Words(AfterWord(t) + [c] + b)
  {
    var x := t + [c] + b;
    var w := WordPrefix(t);
    assert x == t + ([c] + b);
    WordsUnfold(t);
    WordsUnfold(x);
    if |w| < |t| {
      WordPrefixAppend(t, [c] + b);
    } else {
      assert w == t;
      WordPrefixBeforeSpace(t, [c] + b);
    }
    assert x[|w|..] == AfterWord(t) + [c] + b;
  }

  lemma WordsAcrossLeading(a: string, c: char, b: string)
    requires !AllSpace(a)
    ensures TrimStart(a) != [] && !IsSpace(TrimStart(a)[0])
    ensures Words(a) == Words(TrimStart(a))
    ensures Words(a + [c] + b) == Words(TrimStart(a) + [c] + b)
  {
    var t := TrimStart(a);
    LeadingSpacesAreSpaces(a);
    TrimStartAppend(a, [c] + b);
    assert a + [c] + b == a + ([c] + b) && t + ([c] + b) == t + [c] + b;
    WordsAfterSpaces(a + [c] + b);
    WordsAfterSpaces(a);
  }

  lemma WordsOfFirstWord(a: string)
    requires !AllSpace(a)
    ensures Words(a) == [WordPrefix(TrimStart(a))] + Words(AfterWord(TrimStart(a)))
  {
    var t := TrimStart(a);
    TrimEmpty(a);
    WordsAfterSpaces(a);
    LeadingSpacesAreSpaces(a);
    assert t[0] == a[LeadingSpaces(a)];
    WordsUnfold(t);
  }

  lemma WordsAcrossFirstWordJoined(a: string, c: char, b: string)
    requires IsSpace(c) && !AllSpace(a)
    ensures Words(a + [c] + b) == [WordPrefix(TrimStart(a))] + Words(AfterWord(TrimStart(a)) + [c] + b)
  {
    WordsAcrossLeading(a, c, b);
    WordsAcrossWord(TrimStart(a), c, b);
  }

  /** The step of `WordsAcrossSpace` for an `a` with a word in it, given the property for
      what follows its first word. */
  lemma WordsAcrossFirstWord(a: string, c: char, b: string)
    requires IsSpace(c) && !AllSpace(a)
    requires var r := AfterWord(TrimStart(a)); Words(r + [c] + b) == Words(r) + Words(b)
    ensures Words(a + [c] + b) == Words(a) + Words(b)
  {
    var w := WordPrefix(TrimStart(a));
    var r := AfterWord(TrimStart(a));
    WordsOfFirstWord(a);
    WordsAcrossFirstWordJoined(a, c, b);
    AppendAssoc([w], Words(r), Words(b));
  }

  lemma AppendAssoc<T>(x: seq<T>, y: seq<T>, z: seq<T>)
    ensures x + (y + z) == (x + y) + z
  {
  }

  /** Joining with a white-space character adds a word boundary and nothing else. */
  lemma {:induction false} WordsAcrossSpace(a: string, c: char, b: string)
    requires IsSpace(c)
    ensures Words(a + [c] + b) == Words(a) + Words(b)
    decreases |a|
  {
    if AllSpace(a) {
      WordsAcrossBlank(a, c, b);
    } else {
      var r := AfterWord(TrimStart(a));
      WordsAcrossLeading(a, c, b);
      WordsUnfold(TrimStart(a));
      WordsAcrossSpace(r, c, b);
      WordsAcrossFirstWord(a, c, b);
    }
  }

  /** The words of strings joined by a single space are the words of the parts, in order. */
  lemma {:induction false} WordsOfJoin(parts: seq<string>)
    ensures Words(JoinWith(parts, " ")) == WordsOfAll(parts)
  {
    if |parts| == 1 {
      assert WordsOfAll(parts[1..]) == [];
    } else if |parts| > 1 {
      WordsOfJoin(parts[1..]);
      WordsAcrossSpace(parts[0], ' ', JoinWith(parts[1..], " "));
      assert parts[0] + " " + JoinWith(parts[1..], " ") == parts[0] + [' '] + JoinWith(parts[1..], " ");
    }
  }

  /** Words joined by single spaces have no white space at the ends and no two white-space
      characters in a row, and are empty only when there are no words. */
  lemma {:induction false} JoinedWordsAreClean(ws: seq<string>)
    requires forall k :: 0 <= k < |ws| ==> |ws[k]| > 0 && NoSpace(ws[k])
    ensures Trimmed(JoinWith(ws, " ")) && NoDoubleSpace(JoinWith(ws, " "))
    ensures JoinWith(ws, " ") == [] <==> ws == []
    ensures ws != [] ==> JoinWith(ws, " ")[0] == ws[0][0]
  {
    if |ws| > 1 {
      JoinedWordsAreClean(ws[1..]);
      var w := ws[0];
      var r := JoinWith(ws[1..], " ");
      var j := w + " " + r;
      assert j == JoinWith(ws, " ");
      forall i | 0 <= i < |j| - 1 ensures !(IsSpace(j[i]) && IsSpace(j[i + 1])) {
        if i < |w| {
          assert j[i] == w[i];
        } else if i == |w| {
          assert j[i + 1] == r[0];
        } else {
          assert j[i] == r[i - |w| - 1] && j[i + 1] == r[i - |w|];
        }
      }
      assert j[|j| - 1] == r[|r| - 1];
    } else if |ws| == 1 {
      assert JoinWith(ws, " ") == ws[0];
    }
  }

  /** `t` occurs in `s` at position `i`. */
  predicate OccursAt(s: string, t: string, i: nat) {
    i + |t| <= |s| && s[i..i + |t|] == t
  }

  /** `s.includes(t)` holds exactly when `t` occurs in `s` at some position. */
  lemma {:induction false} IncludesAt(s: string, t: string)
    ensures Includes(s, t) <==> exists i: nat :: OccursAt(s, t, i)
    decreases |s|
  {
    if t <= s {
      assert OccursAt(s, t, 0);
    }
    if s != [] {
      IncludesAt(s[1..], t);
      if Includes(s[1..], t) {
        var i: nat :| OccursAt(s[1..], t, i);
        assert s[1..][i..i + |t|] == s[i + 1..i + 1 + |t|];
        assert OccursAt(s, t, i + 1);
      }
      if exists i: nat :: OccursAt(s, t, i) {
        var i: nat :| OccursAt(s, t, i);
        if i > 0 {
          assert s[1..][i - 1..i - 1 + |t|] == s[i..i + |t|];
          assert OccursAt(s[1..], t, i - 1);
        } else {
          assert t <= s;
        }
      }
    } else if exists i: nat :: OccursAt(s, t, i) {
      var i: nat :| OccursAt(s, t, i);
      assert t == [];
    }
  }

  /** An occurrence of a space-free `t` in `a + " " + b` lies wholly in `a` or wholly in `b`. */
  lemma IncludesAcrossSpace(a: string, b: string, t: string)
    requires t != [] && NoSpace(t)
    ensures Includes(a + " " + b, t) <==> Includes(a, t) || Includes(b, t)
  {
    if Includes(a + " " + b, t) {
      OccurrenceInPart(a, b, t);
    }
    if Includes(a, t) || Includes(b, t) {
      PartOccurrence(a, b, t);
    }
  }

  lemma OccurrenceInPart(a: string, b: string, t: string)
    requires t != [] && NoSpace(t) && Includes(a + " " + b, t)
    ensures Includes(a, t) || Includes(b, t)
  {
    var s := a + " " + b;
    IncludesAt(s, t);
    var i: nat :| OccursAt(s, t, i);
    if i + |t| <= |a| {
      assert a[i..i + |t|] == s[i..i + |t|];
      assert OccursAt(a, t, i);
      IncludesAt(a, t);
    } else if i > |a| {
      var j := i - |a| - 1;
      assert s[|a| + 1..] == b;
      assert s[i..i + |t|] == s[|a| + 1..][j..j + |t|];
      assert OccursAt(b, t, j);
      IncludesAt(b, t);
    } else {
      SpaceInside(a, b, t, i);
      assert false;
    }
  }

  lemma PartOccurrence(a: string, b: string, t: string)
    requires Includes(a, t) || Includes(b, t)
    ensures Includes(a + " " + b, t)
  {
    var s := a + " " + b;
    IncludesAt(s, t);
    if Includes(a, t) {
      IncludesAt(a, t);
      var i: nat :| OccursAt(a, t, i);
      assert s[i..i + |t|] == a[i..i + |t|];
      assert OccursAt(s, t, i);
    } else {
      IncludesAt(b, t);
      var i: nat :| OccursAt(b, t, i);
      assert s[|a| + 1 + i..|a| + 1 + i + |t|] == b[i..i + |t|];
      assert OccursAt(s, t, |a| + 1 + i);
    }
  }

  lemma SpaceInside(a: string, b: string, t: string, i: nat)
    requires OccursAt(a + " " + b, t, i) && i <= |a| < i + |t|
    ensures IsSpace(t[|a| - i])
  {
    assert t[|a| - i] == (a + " " + b)[i..i + |t|][|a| - i];
  }

  /** A text without digits includes no string that starts with a digit. */
  lemma NoDigitsNoCode(s: string, t: string)
    requires forall i :: 0 <= i < |s| ==> !IsDigit(s[i])
    requires t != [] && IsDigit(t[0])
    ensures !Includes(s, t)
  {
    IncludesAt(s, t);
    forall i: nat | i + |t| <= |s|
      ensures !OccursAt(s, t, i)
    {
      assert s[i..i + |t|][0] == s[i];
    }
  }

  /** Between strings of equal length, `includes` is equality. */
  lemma IncludesSameLength(s: string, t: string)
    requires |s| == |t|
    ensures Includes(s, t) <==> s == t
  {
    IncludesAt(s, t);
    if s == t {
      assert OccursAt(s, t, 0);
    }
  }

  /** A three-digit number's decimal rendering. */
  lemma NatToStringThreeDigits(n: nat)
    requires 100 <= n < 1000
    ensures NatToString(n) == [DigitChar(n / 100), DigitChar(n / 10 % 10), DigitChar(n % 10)]
  {
    var q := n / 10;
    assert 10 <= q < 100;
    assert q / 10 == n / 100 && q / 10 < 10;
    assert NatToString(q / 10) == [DigitChar(n / 100)];
    assert NatToString(q) == [DigitChar(n / 100)] + [DigitChar(q % 10)];
    assert NatToString(n) == NatToString(q) + [DigitChar(n % 10)];
  }

  /** Every word of a list of strings is non-empty and free of white space. */
  lemma {:induction false} WordsOfAllAreWords(parts: seq<string>)
    ensures forall k :: 0 <= k < |WordsOfAll(parts)| ==>
      |WordsOfAll(parts)[k]| > 0 && NoSpace(WordsOfAll(parts)[k])
  {
    if parts != [] {
      WordsAreWords(parts[0]);
      WordsOfAllAreWords(parts[1..]);
      var ws := WordsOfAll(parts);
      var head := Words(parts[0]);
      forall k | 0 <= k < |ws|
        ensures |ws[k]| > 0 && NoSpace(ws[k])
      {
        if k >= |head| {
          assert ws[k] == WordsOfAll(parts[1..])[k - |head|];
        }
      }
    }
  }
}
