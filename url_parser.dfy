/** `parseVimeoUrls`: free text pasted by the user becomes one entry per non-empty line or
    comma-separated segment, each either valid (with the numeric Vimeo video id) or invalid
    (with an error message).  The three regular expressions are written out as matchers:
    a leftmost search for a case-insensitive literal followed by the longest run of digits. */
module UrlParser {
  import opened JsText

  /** The parser's argument: a string, or anything else (`null`, `undefined`, a number...). */
  datatype Input = Text(s: string) | NotText

  datatype Entry = Entry(originalUrl: string, videoId: Option<string>, isValid: bool, error: Option<string>)

  const InvalidUrlMessage: string := "URL de Vimeo no válida"

  /** The three patterns, in the order they are tried:
      `vimeo.com/<digits>/<10 hex>`, `vimeo.com/<digits>`, `player.vimeo.com/video/<digits>`. */
  datatype Pattern = PrivateLink | PublicLink | PlayerEmbed

  const Patterns: seq<Pattern> := [PrivateLink, PublicLink, PlayerEmbed]

  /** `split(/[\n,]/)` separators. */
  predicate IsSeparator(c: char) {
    c == '\n' || c == ','
  }

  predicate NoSeparator(s: string) {
    forall i :: 0 <= i < |s| ==> !IsSeparator(s[i])
  }

  // ---------------------------------------------------------------- segments

  /** `s.split(/[\n,]/)`: the pieces between separators, including empty ones. */
  function Split(s: string): (parts: seq<string>)
    ensures |parts| >= 1
    decreases |s|
  {
    if s == [] then [[]]
    else
      var rest := Split(s[1..]);
      if IsSeparator(s[0]) then [[]] + rest else [[s[0]] + rest[0]] + rest[1..]
  }

  predicate NonEmpty(s: string) {
    |s| > 0
  }

  /** `.split(/[\n,]/).map(url => url.trim()).filter(url => url.length > 0)` */
  function Segments(s: string): (urls: seq<string>)
  {
    Filter(NonEmpty, Map(Trim, Split(s)))
  }

  /** No piece of a split contains a separator. */
  lemma {:induction false} SplitHasNoSeparators(s: string)
    ensures forall k :: 0 <= k < |Split(s)| ==> NoSeparator(Split(s)[k])
    decreases |s|
  {
    if s != [] {
      SplitHasNoSeparators(s[1..]);
    }
  }

  /** Splitting a comma list and joining it back with commas gives the input again. */
  lemma {:induction false} SplitJoinsBack(s: string)
    requires forall i :: 0 <= i < |s| ==> s[i] != '\n'
    ensures JoinWith(Split(s), ",") == s
    decreases |s|
  {
    if s != [] {
      var rest := Split(s[1..]);
      SplitJoinsBack(s[1..]);
      if IsSeparator(s[0]) {
        assert Split(s) == [[]] + rest;
        assert s == [] + "," + JoinWith(rest, ",");
      } else if |rest| == 1 {
        assert Split(s) == [[s[0]] + rest[0]];
      } else {
        assert Split(s) == [[s[0]] + rest[0]] + rest[1..];
        assert JoinWith(rest, ",") == rest[0] + "," + JoinWith(rest[1..], ",");
        assert ([s[0]] + rest[0]) + "," + JoinWith(rest[1..], ",") == [s[0]] + JoinWith(rest, ",");
      }
    }
  }

  /** Every segment is non-empty, trimmed and free of separators. */
  lemma SegmentsAreClean(s: string)
    ensures forall k :: 0 <= k < |Segments(s)| ==>
      var u := Segments(s)[k]; |u| > 0 && Trimmed(u) && NoSeparator(u)
  {
    var parts := Split(s);
    SplitHasNoSeparators(s);
    FilterMembers(NonEmpty, Map(Trim, parts));
    forall k | 0 <= k < |Segments(s)|
      ensures var u := Segments(s)[k]; |u| > 0 && Trimmed(u) && NoSeparator(u)
    {
      var u := Segments(s)[k];
      assert u in Segments(s);
      var j :| 0 <= j < |parts| && u == Trim(parts[j]);
      TrimIsCentralSlice(parts[j]);
      TrimChars(parts[j]);
    }
  }

  /** A segment on its own splits, trims and filters to itself. */
  lemma SegmentOfSegment(u: string)
    requires |u| > 0 && Trimmed(u) && NoSeparator(u)
    ensures Segments(u) == [u]
  {
    SplitOfPlain(u);
    TrimTwice(u);
    TrimIsCentralSlice(u);
    assert Trim(u) == u by {
      TrimOfTrimmed(u);
    }
    assert Map(Trim, [u]) == [u];
  }

  lemma {:induction false} SplitOfPlain(u: string)
    requires NoSeparator(u)
    ensures Split(u) == [u]
    decreases |u|
  {
    if u != [] {
      SplitOfPlain(u[1..]);
      assert [u[0]] + u[1..] == u;
    }
  }

  lemma TrimOfTrimmed(u: string)
    requires Trimmed(u)
    ensures Trim(u) == u
  {
    if u != [] {
      assert LeadingSpaces(u) == 0;
      assert TrimStart(u) == u;
      assert TrailingSpaces(u) == 0;
    }
  }

  // ---------------------------------------------------------------- matchers

  /** ASCII-only case folding, as a case-insensitive regular expression without the `u` flag
      does for these literals. */
  function LowerAscii(c: char): char {
    if 'A' <= c <= 'Z' then (c as int + 32) as char else c
  }

  predicate IsHex(c: char) {
    IsDigit(c) || 'a' <= LowerAscii(c) <= 'f'
  }

  function Literal(p: Pattern): string {
    match p
    case PrivateLink => "vimeo.com/"
    case PublicLink => "vimeo.com/"
    case PlayerEmbed => "player.vimeo.com/video/"
  }

  /** `s` with its ASCII capitals made lower case. */
  function LowerAsciiString(s: string): (r: string)
    ensures |r| == |s|
  {
    if s == [] then [] else [LowerAscii(s[0])] + LowerAsciiString(s[1..])
  }

  /** The lower-case literal `lit` occurs at `i` in `s`, ignoring ASCII case. */
  predicate LiteralAt(lit: string, s: string, i: nat) {
    i + |lit| <= |s| && LowerAsciiString(s[i..i + |lit|]) == lit
  }

  predicate AllHex(s: string) {
    s == [] || (IsHex(s[0]) && AllHex(s[1..]))
  }

  /** The longest run of decimal digits `s` starts with (`\d+` is greedy). */
  function DigitPrefix(s: string): (d: string)
    ensures d <= s && AllDigits(d)
    ensures |d| == |s| || !IsDigit(s[|d|])
  {
    if s == [] || !IsDigit(s[0]) then [] else [s[0]] + DigitPrefix(s[1..])
  }

  /** `/` followed by ten hexadecimal characters at position `k`. */
  predicate PrivateKeyAt(s: string, k: nat) {
    k + 11 <= |s| && s[k] == '/' && AllHex(s[k + 1..k + 11])
  }

  /** The capture group when pattern `p` matches starting at position `i`, else `None`. */
  function MatchAt(p: Pattern, s: string, i: nat): (m: Option<string>)
    ensures m.Some? ==> |m.value| > 0 && AllDigits(m.value)
  {
    var lit := Literal(p);
    if !LiteralAt(lit, s, i) then None
    else
      var d := DigitPrefix(s[i + |lit|..]);
      if d == [] then None
      else if p == PrivateLink && !PrivateKeyAt(s, i + |lit| + |d|) then None
      else Some(d)
  }

  /** The first position at or after `i` where `p` matches. */
  function Search(p: Pattern, s: string, i: nat): (pos: Option<nat>)
    ensures pos.Some? ==> i <= pos.value <= |s| && MatchAt(p, s, pos.value).Some?
    decreases |s| + 1 - i
  {
    if i > |s| then None
    else if MatchAt(p, s, i).Some? then Some(i)
    else Search(p, s, i + 1)
  }

  /** `s.match(p)`'s group 1: the capture at the leftmost position where `p` matches. */
  function Match(p: Pattern, s: string): (m: Option<string>)
  {
    match Search(p, s, 0)
    case None => None
    case Some(pos) => MatchAt(p, s, pos)
  }

  /** The id taken from the first of `ps` that matches. */
  function FirstMatch(ps: seq<Pattern>, s: string): (m: Option<string>)
  {
    if ps == [] then None
    else if Match(ps[0], s).Some? then Match(ps[0], s)
    else FirstMatch(ps[1..], s)
  }

  function ExtractId(url: string): Option<string> {
    FirstMatch(Patterns, url)
  }

  /** Search finds the leftmost match: nothing matches between `i` and the position found,
      and nothing matches at all when it finds none. */
  lemma {:induction false} SearchIsLeftmost(p: Pattern, s: string, i: nat)
    ensures match Search(p, s, i)
      case Some(pos) => forall k :: i <= k < pos ==> MatchAt(p, s, k).None?
      case None => forall k :: i <= k <= |s| ==> MatchAt(p, s, k).None?
    decreases |s| + 1 - i
  {
    if i <= |s| && MatchAt(p, s, i).None? {
      SearchIsLeftmost(p, s, i + 1);
      assert Search(p, s, i) == Search(p, s, i + 1);
      match Search(p, s, i + 1)
      case Some(pos) => NoMatchBefore(p, s, i, pos);
      case None => NoMatchBefore(p, s, i, |s| + 1);
    }
  }

  lemma NoMatchBefore(p: Pattern, s: string, i: nat, j: nat)
    requires MatchAt(p, s, i).None?
    requires forall k :: i + 1 <= k < j ==> MatchAt(p, s, k).None?
    ensures forall k :: i <= k < j ==> MatchAt(p, s, k).None?
  {
  }

  /** `s.match(p)` succeeds exactly when the pattern matches somewhere, and then its group is
      the capture at the leftmost such position. */
  lemma MatchIsLeftmost(p: Pattern, s: string)
    ensures Match(p, s).None? <==> forall k :: 0 <= k <= |s| ==> MatchAt(p, s, k).None?
    ensures Match(p, s).Some? ==>
      exists pos :: 0 <= pos <= |s| && Match(p, s) == MatchAt(p, s, pos)
        && forall k :: 0 <= k < pos ==> MatchAt(p, s, k).None?
  {
    SearchIsLeftmost(p, s, 0);
    match Search(p, s, 0)
    case None =>
    case Some(pos) =>
      assert Match(p, s) == MatchAt(p, s, pos);
  }

  /** Wherever a private link matches, the public-link pattern matches too, with the same id. */
  lemma PrivateLinkIsPublicLink(s: string, i: nat)
    requires MatchAt(PrivateLink, s, i).Some?
    ensures MatchAt(PublicLink, s, i) == MatchAt(PrivateLink, s, i)
  {
  }

  /** The id is the group of the first pattern, in the order private link, public link,
      player embed, that matches; it is a non-empty run of digits, and there is none exactly
      when no pattern matches. */
  lemma ExtractIdPrecedence(url: string)
    ensures Match(PrivateLink, url).Some? ==> ExtractId(url) == Match(PrivateLink, url)
    ensures Match(PrivateLink, url).None? && Match(PublicLink, url).Some?
      ==> ExtractId(url) == Match(PublicLink, url)
    ensures Match(PrivateLink, url).None? && Match(PublicLink, url).None?
      ==> ExtractId(url) == Match(PlayerEmbed, url)
    ensures ExtractId(url).Some? ==> |ExtractId(url).value| > 0 && AllDigits(ExtractId(url).value)
  {
    SearchMatches(PrivateLink, url);
    SearchMatches(PublicLink, url);
    SearchMatches(PlayerEmbed, url);
    assert Patterns[1..] == [PublicLink, PlayerEmbed];
    assert [PublicLink, PlayerEmbed][1..] == [PlayerEmbed];
    assert [PlayerEmbed][1..] == [];
    if Match(PrivateLink, url).None? {
      assert ExtractId(url) == FirstMatch([PublicLink, PlayerEmbed], url);
      if Match(PublicLink, url).None? {
        assert ExtractId(url) == FirstMatch([PlayerEmbed], url);
      }
    }
  }

  lemma SearchMatches(p: Pattern, s: string)
    ensures Match(p, s).Some? ==> |Match(p, s).value| > 0 && AllDigits(Match(p, s).value)
  {
  }

  // ---------------------------------------------------------------- entries

  /** The entry recorded for one segment. */
  function EntryFor(url: string): (e: Entry)
    ensures e.originalUrl == url
    ensures e.isValid <==> e.videoId.Some?
    ensures e.videoId == ExtractId(url)
    ensures !e.isValid ==> e.error == Some(InvalidUrlMessage)
  {
    match ExtractId(url)
    case Some(id) => Entry(url, Some(id), true, None)
    case None => Entry(url, None, false, Some(InvalidUrlMessage))
  }

  /** `parseVimeoUrls(input)` as a value. */
  function Parse(input: Input): (r: seq<Entry>)
  {
    match input
    case NotText => []
    case Text(s) => if s == [] then [] else Map(EntryFor, Segments(s))
  }

  /** The `for (const pattern of patterns)` loop: the first pattern that matches gives the
      id, and the loop stops there. */
  method MatchFirstPattern(url: string) returns (videoId: Option<string>)
    ensures videoId == ExtractId(url)
  {
    videoId := None;
    var i := 0;
    while i < |Patterns|
      invariant 0 <= i <= |Patterns|
      invariant videoId.None?
      invariant FirstMatch(Patterns, url) == FirstMatch(Patterns[i..], url)
    {
      var m := Match(Patterns[i], url);
      if m.Some? {
        videoId := m;
        break;
      }
      assert Patterns[i..][1..] == Patterns[i + 1..];
      i := i + 1;
    }
  }

  /** `parseVimeoUrls`: the segments are computed, and the `forEach` pushes one entry each. */
  method ParseVimeoUrls(input: Input) returns (videoIds: seq<Entry>)
    ensures videoIds == Parse(input)
  {
    if input.NotText? || input.s == [] {
      return [];
    }
    var urls := Segments(input.s);
    videoIds := PushEntries(urls);
  }

  /** The `forEach` over the segments: one entry pushed per url, valid with the id found or
      invalid with the error message. */
  method PushEntries(urls: seq<string>) returns (videoIds: seq<Entry>)
    ensures videoIds == Map(EntryFor, urls)
  {
    videoIds := [];
    var i := 0;
    while i < |urls|
      invariant 0 <= i <= |urls|
      invariant videoIds == Map(EntryFor, urls[..i])
    {
      var url := urls[i];
      var videoId := MatchFirstPattern(url);
      if videoId.Some? {
        videoIds := videoIds + [Entry(url, videoId, true, None)];
      } else {
        videoIds := videoIds + [Entry(url, None, false, Some(InvalidUrlMessage))];
      }
      assert urls[..i + 1] == urls[..i] + [url];
      MapSnoc(EntryFor, urls[..i], url);
      i := i + 1;
    }
    assert urls[..i] == urls;
  }

  // ---------------------------------------------------------------- properties

  /** Anything but a non-empty string yields no entries. */
  lemma NonTextIsEmpty(input: Input)
    requires input.NotText? || input.s == []
    ensures Parse(input) == []
  {
  }

  /** One entry per non-empty trimmed segment, in input order. */
  lemma ParseFollowsSegments(s: string)
    ensures |Parse(Text(s))| == |Segments(s)|
    ensures forall k :: 0 <= k < |Segments(s)| ==> Parse(Text(s))[k].originalUrl == Segments(s)[k]
  {
    if s == [] {
      assert Split(s) == [[]];
      assert Map(Trim, Split(s)) == [[]];
      assert Segments(s) == [];
    }
  }

  /** Every entry is well formed: its url is a clean segment, it is valid exactly when it has
      an id, a valid id is a non-empty run of digits, and an invalid entry carries the error. */
  lemma EntriesAreWellFormed(input: Input)
    ensures forall e :: e in Parse(input) ==>
      && |e.originalUrl| > 0 && Trimmed(e.originalUrl) && NoSeparator(e.originalUrl)
      && (e.isValid <==> e.videoId.Some?)
      && (e.isValid ==> |e.videoId.value| > 0 && AllDigits(e.videoId.value) && e.error.None?)
      && (!e.isValid ==> e.error == Some(InvalidUrlMessage))
  {
    if input.Text? && input.s != [] {
      var segs := Segments(input.s);
      SegmentsAreClean(input.s);
      forall e | e in Parse(input)
        ensures |e.originalUrl| > 0 && Trimmed(e.originalUrl) && NoSeparator(e.originalUrl)
        ensures e.isValid ==> |e.videoId.value| > 0 && AllDigits(e.videoId.value) && e.error.None?
      {
        MapMember(EntryFor, segs, e);
        var k :| 0 <= k < |segs| && e == EntryFor(segs[k]);
        ExtractIdPrecedence(segs[k]);
      }
    }
  }

  /** Parsing an entry's url on its own gives back that entry alone. */
  lemma ReparseIsIdentity(input: Input, e: Entry)
    requires e in Parse(input)
    ensures Parse(Text(e.originalUrl)) == [e]
  {
    EntriesAreWellFormed(input);
    var s := input.s;
    var k :| 0 <= k < |Segments(s)| && e == EntryFor(Segments(s)[k]);
    SegmentOfSegment(e.originalUrl);
  }
}
