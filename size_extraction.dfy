// `extract_base_name_and_size`: split an order line's item name into a base
// product name and an optional size code. The source tries two regular
// expressions in turn with `re.search`,
//
//     \s*-\s*(\d*X*[SML]+)\s*$      then      \s*/\s*(\d*X*[SML]+)\s*$
//
// and on the first that matches returns the captured group as the size and
// the name with the match removed and stripped as the base. Here the two
// patterns are recognised by hand: `IsSizeToken` is the group, `Search` the
// leftmost match, and `IsMatch` states what a match of the whole pattern at
// a given start is, so that `Search` can be proved to find the match
// `re.search` finds.
module SizeExtraction {
  import opened Wrappers
  import opened Text

  /** The two separators, in the order the patterns are tried. */
  const Separators: seq<char> := ['-', '/']

  predicate IsSeparator(c: char) {
    c == '-' || c == '/'
  }

  predicate IsSizeLetter(c: char) {
    c == 'S' || c == 'M' || c == 'L'
  }

  /** A character the size group `\d*X*[SML]+` can contain. */
  predicate IsTokenChar(c: char) {
    IsDigit(c) || c == 'X' || IsSizeLetter(c)
  }

  predicate AllSizeLetters(s: string) {
    forall i :: 0 <= i < |s| ==> IsSizeLetter(s[i])
  }

  /** `X*[SML]+`: any number of `X`, then one or more of S, M, L. */
  predicate IsXLetters(t: string) {
    |t| > 0 && if t[0] == 'X' then IsXLetters(t[1..]) else AllSizeLetters(t)
  }

  /** The size group `\d*X*[SML]+`, recognised greedily: skip the digits,
      skip the `X`s, and what is left must be one or more of S, M, L. */
  predicate IsSizeToken(t: string) {
    if |t| > 0 && IsDigit(t[0]) then IsSizeToken(t[1..]) else IsXLetters(t)
  }

  /** `t` is digits up to `i`, then `X`s up to `j`, then at least one of
      S, M, L. */
  ghost predicate SplitAt(t: string, i: int, j: int) {
    && 0 <= i <= j < |t|
    && (forall k :: 0 <= k < i ==> IsDigit(t[k]))
    && (forall k :: i <= k < j ==> t[k] == 'X')
    && (forall k :: j <= k < |t| ==> IsSizeLetter(t[k]))
  }

  /** The size group as the regular expression states it: some split of
      `t` into digits, then `X`s, then at least one of S, M, L. */
  ghost predicate TokenShape(t: string) {
    exists i, j :: SplitAt(t, i, j)
  }

  lemma {:induction false} XLettersSplit(t: string) returns (j: nat)
    requires IsXLetters(t)
    ensures SplitAt(t, 0, j)
  {
    if t[0] == 'X' {
      var k := XLettersSplit(t[1..]);
      j := k + 1;
    } else {
      j := 0;
    }
  }

  lemma {:induction false} SizeTokenSplit(t: string) returns (i: nat, j: nat)
    requires IsSizeToken(t)
    ensures SplitAt(t, i, j)
  {
    if |t| > 0 && IsDigit(t[0]) {
      var i', j' := SizeTokenSplit(t[1..]);
      i, j := i' + 1, j' + 1;
    } else {
      i := 0;
      j := XLettersSplit(t);
    }
  }

  lemma {:induction false} ShapeIsXLetters(t: string, j: nat)
    requires SplitAt(t, 0, j)
    ensures IsXLetters(t)
  {
    if j > 0 {
      ShapeIsXLetters(t[1..], j - 1);
    }
  }

  lemma {:induction false} ShapeIsSizeToken(t: string, i: nat, j: nat)
    requires SplitAt(t, i, j)
    ensures IsSizeToken(t)
  {
    if i > 0 {
      ShapeIsSizeToken(t[1..], i - 1, j - 1);
    } else {
      ShapeIsXLetters(t, j);
    }
  }

  /** The greedy recogniser accepts exactly the strings the group matches
      (the three character classes are disjoint, so backtracking never
      finds a split the greedy one misses). */
  lemma SizeTokenIsShape(t: string)
    ensures IsSizeToken(t) <==> TokenShape(t)
  {
    if IsSizeToken(t) {
      var i, j := SizeTokenSplit(t);
    }
    if TokenShape(t) {
      var i, j :| SplitAt(t, i, j);
      ShapeIsSizeToken(t, i, j);
    }
  }

  /** Every character of a size is a digit, `X`, `S`, `M` or `L`, and a
      size is never empty. So a lower-case size such as `m` or `xl`, or a
      code with another letter such as `A2`, is not a size. */
  lemma SizeTokenAlphabet(t: string)
    requires IsSizeToken(t)
    ensures |t| > 0
    ensures forall i :: 0 <= i < |t| ==> IsTokenChar(t[i])
  {
    var d, x := SizeTokenSplit(t);
  }

  // ---------------------------------------------------------------------
  // Searching for the whole pattern

  /** A match of `\s*SEP\s*(TOKEN)\s*$` that starts at `m.start`, has the
      separator at `m.sep` and the group at `m.tokenStart..m.tokenEnd`. */
  datatype Match = Match(start: nat, sep: nat, tokenStart: nat, tokenEnd: nat)

  /** `m` is a match of the pattern for `sep` in `s`: from `m.start` to the
      end, `s` is whitespace, the separator, whitespace, a size token and
      whitespace. (`$` may also match before a final newline, but the
      greedy `\s*` before it has then consumed that newline already.) */
  ghost predicate IsMatch(s: string, sep: char, m: Match) {
    && m.start <= m.sep < m.tokenStart <= m.tokenEnd <= |s|
    && SpacesIn(s, m.start, m.sep) && s[m.sep] == sep
    && SpacesIn(s, m.sep + 1, m.tokenStart)
    && TokenShape(s[m.tokenStart..m.tokenEnd])
    && SpacesIn(s, m.tokenEnd, |s|)
  }

  ghost predicate HasMatch(s: string, sep: char) {
    exists m :: IsMatch(s, sep, m)
  }

  /** Index of the last occurrence of `c` in `s[..n]`. */
  function LastIndexOf(s: string, c: char, n: nat): (r: Option<nat>)
    requires n <= |s|
    ensures r.Some? ==> r.value < n && s[r.value] == c
    ensures r.Some? ==> forall j :: r.value < j < n ==> s[j] != c
    ensures r.None? ==> forall j :: 0 <= j < n ==> s[j] != c
  {
    if n == 0 then None
    else if s[n - 1] == c then Some(n - 1)
    else LastIndexOf(s, c, n - 1)
  }

  /** `re.search` with the pattern for `sep`. No character after the
      separator can be the separator again, so the only candidate is the
      last occurrence; the match then starts as far left as whitespace
      allows. */
  function Search(s: string, sep: char): (r: Option<Match>)
    ensures r.Some? ==> r.value.start <= r.value.sep < r.value.tokenStart < r.value.tokenEnd <= |s|
    ensures r.Some? ==> IsSizeToken(s[r.value.tokenStart..r.value.tokenEnd])
  {
    match LastIndexOf(s, sep, |s|)
    case None => None
    case Some(p) =>
      var tokenStart := SkipSpaces(s, p + 1);
      if tokenStart == |s| then None
      else
        var tokenEnd := SkipSpacesBack(s, |s|);
        if IsSizeToken(s[tokenStart..tokenEnd]) then
          Some(Match(SkipSpacesBack(s, p), p, tokenStart, tokenEnd))
        else None
  }

  /** What `Search` finds is a match. */
  lemma SearchSound(s: string, sep: char)
    requires Search(s, sep).Some?
    ensures IsMatch(s, sep, Search(s, sep).value)
  {
    var m := Search(s, sep).value;
    SizeTokenIsShape(s[m.tokenStart..m.tokenEnd]);
  }

  /** After the separator of a match come only whitespace and token
      characters. */
  lemma MatchTail(s: string, sep: char, m: Match, j: int)
    requires IsMatch(s, sep, m) && m.sep < j < |s|
    ensures IsSpace(s[j]) || IsTokenChar(s[j])
  {
    if m.tokenStart <= j < m.tokenEnd {
      var t := s[m.tokenStart..m.tokenEnd];
      SizeTokenIsShape(t);
      SizeTokenAlphabet(t);
      assert t[j - m.tokenStart] == s[j];
    }
  }

  /** The separator of a match is the last occurrence of that separator:
      everything after it is whitespace or token characters. */
  lemma MatchSepIsLast(s: string, sep: char, m: Match)
    requires IsSeparator(sep) && IsMatch(s, sep, m)
    ensures LastIndexOf(s, sep, |s|) == Some(m.sep)
  {
    var li := LastIndexOf(s, sep, |s|);
    if li.Some? && li.value > m.sep {
      MatchTail(s, sep, m, li.value);
    }
  }

  /** The group of a match is bounded by the whitespace runs after the
      separator, and it passes the greedy recogniser. */
  lemma MatchBounds(s: string, sep: char, m: Match)
    requires IsMatch(s, sep, m)
    ensures m.tokenStart < m.tokenEnd
    ensures SkipSpaces(s, m.sep + 1) == m.tokenStart && SkipSpacesBack(s, |s|) == m.tokenEnd
    ensures IsSizeToken(s[m.tokenStart..m.tokenEnd])
  {
    var t := s[m.tokenStart..m.tokenEnd];
    SizeTokenIsShape(t);
    SizeTokenAlphabet(t);
    assert s[m.tokenStart] == t[0] && s[m.tokenEnd - 1] == t[|t| - 1];
    SkipSpacesExact(s, m.sep + 1, m.tokenStart);
    SkipSpacesBackExact(s, |s|, m.tokenEnd);
  }

  /** No match starts left of the whitespace run before its separator. */
  lemma MatchStart(s: string, sep: char, m: Match)
    requires IsMatch(s, sep, m)
    ensures SkipSpacesBack(s, m.sep) <= m.start
  {
  }

  /** `Search` once its pieces are known. */
  lemma SearchAt(s: string, sep: char, p: nat, ts: nat, te: nat)
    requires p < ts < te <= |s| && LastIndexOf(s, sep, |s|) == Some(p)
    requires SkipSpaces(s, p + 1) == ts && SkipSpacesBack(s, |s|) == te
    requires IsSizeToken(s[ts..te])
    ensures Search(s, sep) == Some(Match(SkipSpacesBack(s, p), p, ts, te))
  {
  }

  /** Every match is the one `Search` finds, or starts to the right of it
      with the same separator and group: `Search` is `re.search`'s leftmost
      match. */
  lemma SearchFindsLeftmost(s: string, sep: char, m: Match)
    requires IsSeparator(sep) && IsMatch(s, sep, m)
    ensures Search(s, sep).Some?
    ensures Search(s, sep).value.start <= m.start
    ensures Search(s, sep).value.sep == m.sep
    ensures Search(s, sep).value.tokenStart == m.tokenStart
    ensures Search(s, sep).value.tokenEnd == m.tokenEnd
  {
    MatchSepIsLast(s, sep, m);
    MatchBounds(s, sep, m);
    MatchStart(s, sep, m);
    SearchAt(s, sep, m.sep, m.tokenStart, m.tokenEnd);
  }

  /** `Search` finds nothing exactly when there is no match. */
  lemma SearchComplete(s: string, sep: char)
    requires IsSeparator(sep)
    ensures Search(s, sep).None? <==> !HasMatch(s, sep)
  {
    if Search(s, sep).Some? {
      SearchSound(s, sep);
    }
    if HasMatch(s, sep) {
      var m :| IsMatch(s, sep, m);
      SearchFindsLeftmost(s, sep, m);
    }
  }

  // ---------------------------------------------------------------------
  // extract_base_name_and_size

  /** The base and size for the match `m`: the name with the match
      removed (`re.sub` removes the same single match, the pattern being
      anchored at the end), stripped, and the group. */
  function Split(name: string, m: Match): (string, Option<string>)
    requires m.start <= m.tokenStart <= m.tokenEnd <= |name|
  {
    (Strip(name[..m.start]), Some(name[m.tokenStart..m.tokenEnd]))
  }

  /** The search results from index `k` on, taken in order: the first
      match decides, and when there is none the name comes back unchanged
      with no size. */
  function FirstMatch(name: string, found: seq<Option<Match>>, k: nat): (r: (string, Option<string>))
    requires k <= |found|
    requires forall i :: 0 <= i < |found| && found[i].Some? ==>
      found[i].value.start <= found[i].value.tokenStart <= found[i].value.tokenEnd <= |name|
    ensures r.1.None? ==> r.0 == name && forall i :: k <= i < |found| ==> found[i].None?
    ensures r.1.Some? ==> exists i :: (k <= i < |found| && found[i].Some?
      && (forall j :: k <= j < i ==> found[j].None?)
      && r == Split(name, found[i].value))
    decreases |found| - k
  {
    if k == |found| then (name, None)
    else
      match found[k]
      case Some(m) => Split(name, m)
      case None => FirstMatch(name, found, k + 1)
  }

  /** The patterns tried in order: the first that matches decides, and when
      none does the name comes back unchanged with no size. */
  function ExtractWith(name: string, seps: seq<char>): (r: (string, Option<string>))
    ensures r.1.None? ==> r.0 == name && forall i :: 0 <= i < |seps| ==> Search(name, seps[i]).None?
    ensures r.1.Some? ==> exists i :: (0 <= i < |seps| && Search(name, seps[i]).Some?
      && (forall j :: 0 <= j < i ==> Search(name, seps[j]).None?)
      && r == Split(name, Search(name, seps[i]).value))
  {
    var found := seq(|seps|, i requires 0 <= i < |seps| => Search(name, seps[i]));
    assert forall i :: 0 <= i < |seps| ==> found[i] == Search(name, seps[i]);
    FirstMatch(name, found, 0)
  }

  /** `extract_base_name_and_size(item_name)`: `(base, size)`, with `None`
      for "no size". Without a size the name is returned as it is; a size
      is a non-empty run of digits, `X`, `S`, `M` and `L`. */
  function Extract(name: string): (r: (string, Option<string>))
    ensures r.1.None? ==> r.0 == name
    ensures r.1.Some? ==> IsSizeToken(r.1.value)
    ensures r.1.Some? ==> |r.1.value| > 0 && forall i :: 0 <= i < |r.1.value| ==> IsTokenChar(r.1.value[i])
  {
    var r := ExtractWith(name, Separators);
    if r.1.Some? then SizeTokenAlphabet(r.1.value); r else r
  }

  /** Which pattern decides: `-` when it matches, otherwise `/`. */
  lemma ExtractCases(name: string)
    ensures Search(name, '-').Some? ==> Extract(name) == Split(name, Search(name, '-').value)
    ensures Search(name, '-').None? && Search(name, '/').Some? ==> Extract(name) == Split(name, Search(name, '/').value)
    ensures Search(name, '-').None? && Search(name, '/').None? ==> Extract(name) == (name, None)
  {
    var r := ExtractWith(name, Separators);
    if r.1.Some? {
      var i :| 0 <= i < 2 && Search(name, Separators[i]).Some?
        && (forall j :: 0 <= j < i ==> Search(name, Separators[j]).None?)
        && r == Split(name, Search(name, Separators[i]).value);
      if i == 1 { assert Search(name, Separators[0]).None?; }
    } else {
      assert Search(name, Separators[0]).None? && Search(name, Separators[1]).None?;
    }
  }

  /** A size is found exactly when the name ends in a separator, a size
      token and whitespace: a match of either pattern. */
  lemma ExtractFound(name: string)
    ensures Extract(name).1.Some? <==> HasMatch(name, '-') || HasMatch(name, '/')
  {
    SearchComplete(name, '-');
    SearchComplete(name, '/');
    ExtractCases(name);
  }

  /** A match given by its parts. */
  lemma MatchFromParts(s: string, sep: char, p: nat, ts: nat, te: nat)
    requires p < ts <= te <= |s| && s[p] == sep
    requires SpacesIn(s, p + 1, ts) && TokenShape(s[ts..te]) && SpacesIn(s, te, |s|)
    ensures IsMatch(s, sep, Match(p, p, ts, te))
  {
  }

  /** When the `/` pattern matches, the `-` pattern does not: the `-` would
      lie before the `/`, and then the `/` would sit in the tail of its
      match, or after it, inside the tail of the `/` match. */
  lemma SlashExcludesDash(s: string, m0: Match)
    requires IsMatch(s, '/', m0)
    ensures !HasMatch(s, '-')
  {
    forall m' | IsMatch(s, '-', m') ensures false {
      if m'.sep < m0.sep { MatchTail(s, '-', m', m0.sep); }
      else { MatchTail(s, '/', m0, m'.sep); }
    }
  }

  /** Whatever match of either pattern a name has, the extraction gives its
      token and the text before its separator, stripped: matches of one
      pattern differ only in how much whitespace they take before the
      separator. */
  lemma ExtractAnyMatch(s: string, sep: char, m0: Match)
    requires IsSeparator(sep) && IsMatch(s, sep, m0)
    ensures Extract(s) == (Strip(s[..m0.sep]), Some(s[m0.tokenStart..m0.tokenEnd]))
  {
    SearchFindsLeftmost(s, sep, m0);
    var m := Search(s, sep).value;
    SearchSound(s, sep);
    assert s[..m0.sep] == s[..m.start] + s[m.start..m0.sep];
    assert AllSpace(s[m.start..m0.sep]);
    StripIgnoresTrailingSpace(s[..m.start], s[m.start..m0.sep]);
    ExtractCases(s);
    if sep == '/' {
      SlashExcludesDash(s, m0);
      SearchComplete(s, '-');
    }
  }

  /** Appending to a string keeps what lies in it. */
  lemma PrefixKept(x: string, y: string, i: nat, j: nat)
    requires i <= j <= |x|
    ensures (x + y)[i..j] == x[i..j]
    ensures i < |x| ==> (x + y)[i] == x[i]
  {
  }

  /** What is appended sits at the end. */
  lemma SuffixKept(x: string, y: string)
    ensures (x + y)[|x|..|x| + |y|] == y
  {
  }

  /** The composed name matches the pattern of its separator at the
      separator itself, with the token where it was put. */
  lemma ComposedMatch(base: string, ws1: string, sep: char, ws2: string, token: string, ws3: string)
    requires IsSeparator(sep) && IsSizeToken(token)
    requires AllSpace(ws2) && AllSpace(ws3)
    ensures var p := |base| + |ws1|; var ts := p + 1 + |ws2|;
      IsMatch(base + ws1 + [sep] + ws2 + token + ws3, sep, Match(p, p, ts, ts + |token|))
  {
    var s2 := base + ws1 + [sep];
    var s3 := s2 + ws2;
    var s4 := s3 + token;
    var s := s4 + ws3;
    var p := |base| + |ws1|;
    var ts := p + 1 + |ws2|;
    var te := ts + |token|;
    SpacesAppended(s2, ws2);
    SpacesKept(s3, token, p + 1, ts);
    SpacesKept(s4, ws3, p + 1, ts);
    SpacesAppended(s4, ws3);
    PrefixKept(s4, ws3, ts, te);
    PrefixKept(s2, ws2, p, p + 1);
    PrefixKept(s3, token, p, p + 1);
    PrefixKept(s4, ws3, p, p + 1);
    SizeTokenIsShape(token);
    MatchFromParts(s, sep, p, ts, te);
  }

  /** Round trip: a base, whitespace, a separator, whitespace, a size token
      and whitespace split back into the stripped base and the token. */
  lemma ExtractComposed(base: string, ws1: string, sep: char, ws2: string, token: string, ws3: string)
    requires IsSeparator(sep) && IsSizeToken(token)
    requires AllSpace(ws1) && AllSpace(ws2) && AllSpace(ws3)
    ensures Extract(base + ws1 + [sep] + ws2 + token + ws3) == (Strip(base), Some(token))
  {
    var s1 := base + ws1;
    var s3 := s1 + [sep] + ws2;
    var s4 := s3 + token;
    var s := s4 + ws3;
    var p := |s1|;
    var ts := |s3|;
    var te := |s4|;
    ComposedMatch(base, ws1, sep, ws2, token, ws3);
    ExtractAnyMatch(s, sep, Match(p, p, ts, te));
    PrefixKept(s1, [sep], 0, p);
    PrefixKept(s1 + [sep], ws2, 0, p);
    PrefixKept(s3, token, 0, p);
    PrefixKept(s4, ws3, 0, p);
    SuffixKept(s3, token);
    PrefixKept(s4, ws3, ts, te);
    StripIgnoresTrailingSpace(base, ws1);
  }
}
