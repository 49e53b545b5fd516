/** Neutralizing block delimiters in untrusted text, wrapping it in a block, and reading the block back. */
module Prompting {
  import opened Text

  const ALL_PROMPT_TAGS: seq<string> := ["untrusted_data", "retrieved_context", "route_context"]

  const NEUTRALIZED := "[delimiter-removed]"

  /** Case-insensitive matching of a text character against a pattern character. */
  datatype Folding = Folding(matches: (char, char) -> bool)

  predicate Structural(c: char) {
    c in {'<', '>', '/', '[', ']'}
  }

  /** All that is assumed of case folding: a letter matches itself, and no delimiter or space matches a letter. */
  ghost predicate Sane(f: Folding) {
    forall tag, p | tag in ALL_PROMPT_TAGS && p in tag ::
      && f.matches(p, p)
      && forall c | f.matches(p, c) :: !IsSpace(c) && !Structural(c)
  }

  // ---- the token pattern ----

  predicate Spells(f: Folding, tag: string, text: string) {
    |text| == |tag| && forall i | 0 <= i < |tag| :: f.matches(tag[i], text[i])
  }

  predicate IsTagName(f: Folding, text: string) {
    exists tag | tag in ALL_PROMPT_TAGS :: Spells(f, tag, text)
  }

  function DropLeadingSlash(text: string): string {
    if text != [] && text[0] == '/' then text[1..] else text
  }

  function DropTrailingSlash(text: string): string {
    if text != [] && text[|text| - 1] == '/' then text[..|text| - 1] else text
  }

  /** A full match of the token pattern. */
  predicate IsToken(f: Folding, s: string) {
    && |s| >= 2 && s[0] == '<' && s[|s| - 1] == '>'
    && IsTagName(f, Strip(DropTrailingSlash(DropLeadingSlash(s[1..|s| - 1]))))
  }

  lemma {:induction false} StripLeftOf(spaces: string, text: string)
    requires Blank(spaces) && (text == [] || !IsSpace(text[0]))
    ensures StripLeft(spaces + text) == text
  {
    if spaces == [] {
      assert spaces + text == text;
    } else {
      assert (spaces + text)[1..] == spaces[1..] + text;
      StripLeftOf(spaces[1..], text);
    }
  }

  lemma {:induction false} StripRightOf(text: string, spaces: string)
    requires Blank(spaces) && (text == [] || !IsSpace(text[|text| - 1]))
    ensures StripRight(text + spaces) == text
  {
    if spaces == [] {
      assert text + spaces == text;
    } else {
      var last := |spaces| - 1;
      assert (text + spaces)[..|text + spaces| - 1] == text + spaces[..last];
      StripRightOf(text, spaces[..last]);
    }
  }

  predicate Slash(s: string) {
    s == "" || s == "/"
  }

  lemma TagNameEnds(f: Folding, name: string)
    requires Sane(f) && IsTagName(f, name)
    ensures name != []
    ensures forall c | c in name :: !IsSpace(c) && !Structural(c)
  {
    var tag :| tag in ALL_PROMPT_TAGS && Spells(f, tag, name);
    forall c | c in name ensures !IsSpace(c) && !Structural(c) {
      var i :| 0 <= i < |name| && name[i] == c;
      assert tag[i] in tag && f.matches(tag[i], c);
    }
  }

  function Spelling(open: string, before: string, name: string, after: string, close: string): string {
    "<" + (open + ((before + (name + after)) + close)) + ">"
  }

  lemma SlashSplits(inner: string) returns (open: string, close: string)
    ensures inner == open + (DropTrailingSlash(DropLeadingSlash(inner)) + close)
    ensures Slash(open) && Slash(close)
  {
    var afterOpen := DropLeadingSlash(inner);
    var core := DropTrailingSlash(afterOpen);
    open := inner[..|inner| - |afterOpen|];
    close := afterOpen[|core|..];
    assert afterOpen == core + close;
  }

  lemma SpaceSplits(core: string) returns (before: string, after: string)
    ensures core == before + (Strip(core) + after)
    ensures Blank(before) && Blank(after)
  {
    before := StripLeftSplits(core);
    after := StripRightSplits(StripLeft(core));
  }

  lemma Delimited(s: string)
    requires |s| >= 2 && s[0] == '<' && s[|s| - 1] == '>'
    ensures s == "<" + s[1..|s| - 1] + ">"
  {
  }

  // The recognizer reads off exactly the parts of the regular expression </?\s*(?:tag|...)\s*/?>.
  lemma TokenHasParts(f: Folding, s: string) returns (open: string, before: string, name: string, after: string, close: string)
    requires IsToken(f, s)
    ensures s == Spelling(open, before, name, after, close)
    ensures Slash(open) && Blank(before) && IsTagName(f, name) && Blank(after) && Slash(close)
  {
    var inner := s[1..|s| - 1];
    open, close := SlashSplits(inner);
    var core := DropTrailingSlash(DropLeadingSlash(inner));
    before, after := SpaceSplits(core);
    name := Strip(core);
    Delimited(s);
  }

  lemma PartsMakeToken(f: Folding, open: string, before: string, name: string, after: string, close: string)
    requires Sane(f)
    requires Slash(open) && Blank(before) && IsTagName(f, name) && Blank(after) && Slash(close)
    ensures IsToken(f, Spelling(open, before, name, after, close))
  {
    TagNameEnds(f, name);
    var core := before + (name + after);
    var s := Spelling(open, before, name, after, close);
    assert s[1..|s| - 1] == open + (core + close);
    NotSlash(core, before, name, after);
    SlashesDrop(open, core, close);
    assert name[0] in name && name[|name| - 1] in name;
    StripLeftOf(before, name + after);
    StripRightOf(name, after);
  }

  lemma SlashesDrop(open: string, core: string, close: string)
    requires Slash(open) && Slash(close) && core != [] && core[0] != '/' && core[|core| - 1] != '/'
    ensures DropTrailingSlash(DropLeadingSlash(open + (core + close))) == core
  {
    assert DropLeadingSlash(open + (core + close)) == core + close;
    assert (core + close)[..|core|] == core;
  }

  lemma NotSlash(padded: string, before: string, name: string, after: string)
    requires padded == before + (name + after) && name != [] && Blank(before) && Blank(after)
    requires forall c | c in name :: !Structural(c)
    ensures padded != [] && padded[0] != '/' && padded[|padded| - 1] != '/'
  {
    forall i | 0 <= i < |padded| ensures padded[i] != '/' {
      if i < |before| {
        assert padded[i] in before;
      } else if i < |before| + |name| {
        assert padded[i] in name;
      } else {
        assert padded[i] == after[i - |before| - |name|] && padded[i] in after;
      }
    }
  }

  lemma {:induction false} StripLeftKeeps(text: string, c: char)
    requires c in text && !IsSpace(c)
    ensures c in StripLeft(text)
  {
    if IsSpace(text[0]) {
      StripLeftKeeps(text[1..], c);
    }
  }

  lemma {:induction false} StripRightKeeps(text: string, c: char)
    requires c in text && !IsSpace(c)
    ensures c in StripRight(text)
  {
    if IsSpace(text[|text| - 1]) {
      StripRightKeeps(text[..|text| - 1], c);
    }
  }

  /** Inside a token there is no angle or square bracket. */
  lemma TokenInterior(f: Folding, s: string)
    requires Sane(f) && IsToken(f, s)
    ensures forall i | 0 < i < |s| - 1 :: s[i] !in {'<', '>', '[', ']'}
  {
    var inner := s[1..|s| - 1];
    var core := DropTrailingSlash(DropLeadingSlash(inner));
    TagNameEnds(f, Strip(core));
    forall i | 0 < i < |s| - 1 ensures s[i] !in {'<', '>', '[', ']'} {
      var c := s[i];
      assert c == inner[i - 1];
      if c != '/' && !IsSpace(c) {
        assert c in DropLeadingSlash(inner);
        assert c in core;
        StripLeftKeeps(core, c);
        StripRightKeeps(StripLeft(core), c);
      }
    }
  }

  // ---- scanning ----

  function IndexOf(s: string, c: char): nat {
    if s == [] || s[0] == c then 0 else 1 + IndexOf(s[1..], c)
  }

  lemma {:induction false} IndexOfIsFirst(s: string, c: char)
    ensures IndexOf(s, c) <= |s|
    ensures forall i | 0 <= i < IndexOf(s, c) :: s[i] != c
    ensures IndexOf(s, c) < |s| ==> s[IndexOf(s, c)] == c
  {
    if s != [] && s[0] != c {
      IndexOfIsFirst(s[1..], c);
    }
  }

  /** Length of the token that s starts with, 0 if it starts with none. */
  function TokenLength(f: Folding, s: string): (n: nat)
    ensures n <= |s|
  {
    IndexOfIsFirst(s, '>');
    var end := IndexOf(s, '>');
    if end < |s| && IsToken(f, s[..end + 1]) then end + 1 else 0
  }

  /** A text starts with at most one token, so the pattern leaves the matcher no choice. */
  lemma TokenLengthIsTheMatch(f: Folding, s: string, n: nat)
    requires Sane(f) && n <= |s|
    ensures IsToken(f, s[..n]) <==> n == TokenLength(f, s) && n > 0
  {
    IndexOfIsFirst(s, '>');
    if IsToken(f, s[..n]) {
      TokenInterior(f, s[..n]);
      assert s[n - 1] == '>';
      forall i | 0 <= i < n - 1 ensures s[i] != '>' {
        assert s[i] == s[..n][i];
      }
      assert IndexOf(s, '>') == n - 1;
    }
  }

  /** `_TAG_TOKEN.sub(_NEUTRALIZED, text)`: leftmost matches, left to right, without overlap. */
  function Neutralize(f: Folding, text: string): string {
    if text == [] then []
    else
      var n := TokenLength(f, text);
      if n > 0 then NEUTRALIZED + Neutralize(f, text[n..]) else [text[0]] + Neutralize(f, text[1..])
  }

  ghost predicate TokenFree(f: Folding, text: string) {
    forall i | 0 <= i < |text| :: TokenLength(f, text[i..]) == 0
  }

  lemma StartsWithBracket(f: Folding, s: string)
    requires TokenLength(f, s) > 0
    ensures s[0] == '<'
  {
  }

  lemma NeutralizeStep(f: Folding, text: string)
    requires text != []
    ensures TokenLength(f, text) > 0 ==> Neutralize(f, text)[0] == '['
    ensures TokenLength(f, text) == 0 ==> Neutralize(f, text) == [text[0]] + Neutralize(f, text[1..])
  {
  }

  lemma PrefixCons(c: char, left: string, right: string, m: nat)
    requires m <= |left| && m <= |right| && left[..m] == right[..m]
    ensures ([c] + left)[..m + 1] == ([c] + right)[..m + 1]
  {
    assert ([c] + left)[..m + 1] == [c] + left[..m];
    assert ([c] + right)[..m + 1] == [c] + right[..m];
  }

  lemma NotInTail(x: char, c: char, rest: string, m: nat)
    requires 0 < m <= |rest| + 1 && x !in ([c] + rest)[..m]
    ensures x !in rest[..m - 1]
  {
    forall y | y in rest[..m - 1] ensures y in ([c] + rest)[..m] {
      var k :| 0 <= k < m - 1 && rest[k] == y;
      assert ([c] + rest)[..m][k + 1] == y;
    }
  }

  /** Output that has not met a replacement's bracket is input copied verbatim. */
  lemma {:induction false} VerbatimPrefix(f: Folding, text: string, m: nat)
    requires m <= |Neutralize(f, text)|
    requires '[' !in Neutralize(f, text)[..m]
    ensures m <= |text| && text[..m] == Neutralize(f, text)[..m]
  {
    if m > 0 {
      NeutralizeStep(f, text);
      assert Neutralize(f, text)[0] in Neutralize(f, text)[..m];
      assert TokenLength(f, text) == 0;
      var rest := Neutralize(f, text[1..]);
      NotInTail('[', text[0], rest, m);
      VerbatimPrefix(f, text[1..], m - 1);
      PrefixCons(text[0], text[1..], rest, m - 1);
      assert text == [text[0]] + text[1..];
    }
  }

  lemma TokenTailHasNoBracket(f: Folding, c: char, rest: string, n: nat)
    requires Sane(f) && n <= |[c] + rest| && IsToken(f, ([c] + rest)[..n])
    ensures n > 0 && '[' !in rest[..n - 1]
  {
    TokenInterior(f, ([c] + rest)[..n]);
    forall k | 0 <= k < n - 1 ensures rest[k] != '[' {
      assert ([c] + rest)[..n][k + 1] == rest[k];
    }
  }

  /** A character before neutralized text completes no token that the scan had not already seen. */
  lemma NoTokenAcrossSeam(f: Folding, text: string)
    requires Sane(f) && text != [] && TokenLength(f, text) == 0
    ensures TokenLength(f, [text[0]] + Neutralize(f, text[1..])) == 0
  {
    var rest := Neutralize(f, text[1..]);
    var n := TokenLength(f, [text[0]] + rest);
    if n > 0 {
      TokenLengthIsTheMatch(f, [text[0]] + rest, n);
      TokenTailHasNoBracket(f, text[0], rest, n);
      VerbatimPrefix(f, text[1..], n - 1);
      PrefixCons(text[0], text[1..], rest, n - 1);
      assert text == [text[0]] + text[1..];
      TokenLengthIsTheMatch(f, text, n);
    }
  }

  /** Neutralized text holds no token, not even one formed across a replacement's edge. */
  lemma {:induction false} NeutralizedIsTokenFree(f: Folding, text: string)
    requires Sane(f)
    ensures TokenFree(f, Neutralize(f, text))
  {
    if text != [] {
      var n := TokenLength(f, text);
      if n > 0 {
        var rest := Neutralize(f, text[n..]);
        NeutralizedIsTokenFree(f, text[n..]);
        PrependPlain(f, NEUTRALIZED, rest);
      } else {
        var rest := Neutralize(f, text[1..]);
        NeutralizedIsTokenFree(f, text[1..]);
        NoTokenAcrossSeam(f, text);
        PrependOne(f, text[0], rest);
      }
    }
  }

  lemma PrependOne(f: Folding, c: char, rest: string)
    requires TokenFree(f, rest) && TokenLength(f, [c] + rest) == 0
    ensures TokenFree(f, [c] + rest)
  {
    forall i | 0 <= i < |[c] + rest| ensures TokenLength(f, ([c] + rest)[i..]) == 0 {
      if i == 0 {
        assert ([c] + rest)[0..] == [c] + rest;
      } else {
        assert ([c] + rest)[i..] == rest[i - 1..];
      }
    }
  }

  lemma {:induction false} PrependPlain(f: Folding, plain: string, rest: string)
    requires TokenFree(f, rest) && '<' !in plain
    ensures TokenFree(f, plain + rest)
  {
    if plain == [] {
      assert plain + rest == rest;
    } else {
      PrependPlain(f, plain[1..], rest);
      assert plain[0] in plain;
      assert plain + rest == [plain[0]] + (plain[1..] + rest);
      if TokenLength(f, plain + rest) > 0 {
        StartsWithBracket(f, plain + rest);
      }
      PrependOne(f, plain[0], plain[1..] + rest);
    }
  }

  /** Text without a token is left alone, and only such text is. */
  lemma {:induction false} UnchangedIffTokenFree(f: Folding, text: string)
    requires Sane(f)
    ensures Neutralize(f, text) == text <==> TokenFree(f, text)
  {
    if TokenFree(f, text) {
      TokenFreeUnchanged(f, text);
    }
    NeutralizedIsTokenFree(f, text);
  }

  lemma {:induction false} TokenFreeUnchanged(f: Folding, text: string)
    requires TokenFree(f, text)
    ensures Neutralize(f, text) == text
  {
    if text != [] {
      assert text[0..] == text;
      forall i | 0 <= i < |text[1..]| ensures TokenLength(f, text[1..][i..]) == 0 {
        assert text[1..][i..] == text[i + 1..];
      }
      TokenFreeUnchanged(f, text[1..]);
    }
  }

  lemma NeutralizeIdempotent(f: Folding, text: string)
    requires Sane(f)
    ensures Neutralize(f, Neutralize(f, text)) == Neutralize(f, text)
  {
    NeutralizedIsTokenFree(f, text);
    TokenFreeUnchanged(f, Neutralize(f, text));
  }

  // ---- what is kept ----

  datatype Segment = Plain(c: char) | Token(spelling: string)

  function Segments(f: Folding, text: string): seq<Segment> {
    if text == [] then []
    else
      var n := TokenLength(f, text);
      if n > 0 then [Token(text[..n])] + Segments(f, text[n..]) else [Plain(text[0])] + Segments(f, text[1..])
  }

  function Original(segments: seq<Segment>): string {
    if segments == [] then []
    else (match segments[0] case Plain(c) => [c] case Token(spelling) => spelling) + Original(segments[1..])
  }

  function Replaced(segments: seq<Segment>): string {
    if segments == [] then []
    else (match segments[0] case Plain(c) => [c] case Token(_) => "[delimiter-removed]") + Replaced(segments[1..])
  }

  lemma ConsSegment(first: Segment, rest: seq<Segment>)
    ensures Original([first] + rest) == (match first case Plain(c) => [c] case Token(spelling) => spelling) + Original(rest)
    ensures Replaced([first] + rest) == (match first case Plain(c) => [c] case Token(_) => NEUTRALIZED) + Replaced(rest)
  {
    assert ([first] + rest)[1..] == rest;
  }

  lemma FirstSegment(f: Folding, text: string) returns (first: Segment, m: nat)
    requires text != []
    ensures 0 < m <= |text| && Segments(f, text) == [first] + Segments(f, text[m..])
    ensures text[..m] == match first case Plain(c) => [c] case Token(spelling) => spelling
    ensures Neutralize(f, text) == (match first case Plain(c) => [c] case Token(_) => NEUTRALIZED) + Neutralize(f, text[m..])
  {
    var n := TokenLength(f, text);
    if n > 0 {
      first, m := Token(text[..n]), n;
    } else {
      first, m := Plain(text[0]), 1;
    }
  }

  lemma {:induction false} OriginalIsText(f: Folding, text: string)
    ensures Original(Segments(f, text)) == text
  {
    if text != [] {
      var first, m := FirstSegment(f, text);
      var rest := text[m..];
      OriginalIsText(f, rest);
      ConsSegment(first, Segments(f, rest));
      assert text == text[..m] + rest;
    }
  }

  lemma {:induction false} ReplacedIsNeutralized(f: Folding, text: string)
    ensures Replaced(Segments(f, text)) == Neutralize(f, text)
  {
    if text != [] {
      var first, m := FirstSegment(f, text);
      ReplacedIsNeutralized(f, text[m..]);
      ConsSegment(first, Segments(f, text[m..]));
    }
  }

  /** Input and output are one segmentation read twice: everything outside the tokens is kept, in order. */
  lemma KeepsTextOutsideTokens(f: Folding, text: string)
    ensures Original(Segments(f, text)) == text
    ensures Replaced(Segments(f, text)) == Neutralize(f, text)
  {
    OriginalIsText(f, text);
    ReplacedIsNeutralized(f, text);
  }

  lemma {:induction false} RemovedSegmentsAreTokens(f: Folding, text: string)
    ensures forall segment | segment in Segments(f, text) && segment.Token? :: IsToken(f, segment.spelling)
  {
    if text != [] {
      var n := TokenLength(f, text);
      RemovedSegmentsAreTokens(f, if n > 0 then text[n..] else text[1..]);
    }
  }

  // ---- blocks ----

  function OpenTag(tag: string): string {
    "<" + tag + ">"
  }

  function CloseTag(tag: string): string {
    "</" + tag + ">"
  }

  function Block(open: string, inside: string, close: string): string {
    open + ("\n" + (inside + ("\n" + close)))
  }

  function WrapBlock(f: Folding, tag: string, body: string): string {
    Block(OpenTag(tag), Neutralize(f, body), CloseTag(tag))
  }

  /** First position at or after i where a token starts, or the length of the text. */
  function NextToken(f: Folding, s: string, i: nat): (j: nat)
    requires i <= |s|
    ensures i <= j <= |s|
    decreases |s| - i
  {
    if i == |s| || TokenLength(f, s[i..]) > 0 then i else NextToken(f, s, i + 1)
  }

  /** What a reader makes of a text: one block of this tag and body, or nothing. */
  datatype Reading = NoBlock | Reading(tag: string, body: string)

  /** Read one block: a token at the start, the next token at the very end, newlines inside both. */
  function Unwrap(f: Folding, s: string): Reading {
    var open := TokenLength(f, s);
    if open == 0 then NoBlock
    else
      var close := NextToken(f, s, open);
      if close + TokenLength(f, s[close..]) == |s| then Between(s, open, close) else NoBlock
  }

  function Between(s: string, open: nat, close: nat): Reading
    requires 2 <= open <= close <= |s|
  {
    if close < open + 2 || s[open] != '\n' || s[close - 1] != '\n' then NoBlock
    else Reading(s[1..open - 1], s[open + 1..close - 1])
  }

  lemma {:induction false} NextTokenIs(f: Folding, s: string, i: nat, j: nat)
    requires i <= j <= |s|
    requires forall k | i <= k < j :: TokenLength(f, s[k..]) == 0
    requires j == |s| || TokenLength(f, s[j..]) > 0
    ensures NextToken(f, s, i) == j
    decreases j - i
  {
    if i < j {
      NextTokenIs(f, s, i + 1, j);
    }
  }

  predicate Bare(tag: string) {
    && tag != [] && tag[0] != '/' && !IsSpace(tag[0]) && tag[|tag| - 1] != '/' && !IsSpace(tag[|tag| - 1])
    && '<' !in tag
  }

  /** The three tags begin and end in letters. */
  lemma TagIsBare(tag: string)
    requires tag in ALL_PROMPT_TAGS
    ensures Bare(tag)
  {
  }

  lemma DelimitersAreTokens(f: Folding, tag: string)
    requires Sane(f) && tag in ALL_PROMPT_TAGS
    ensures IsToken(f, OpenTag(tag)) && IsToken(f, CloseTag(tag))
  {
    TagSpellsItself(f, tag);
    TagIsBare(tag);
    NameOfDelimiters(tag);
    TokenAround(f, OpenTag(tag), tag);
    TokenAround(f, CloseTag(tag), "/" + tag);
  }

  lemma TagSpellsItself(f: Folding, tag: string)
    requires Sane(f) && tag in ALL_PROMPT_TAGS
    ensures IsTagName(f, tag)
  {
    assert forall i | 0 <= i < |tag| :: tag[i] in tag;
    assert Spells(f, tag, tag);
  }

  lemma TokenAround(f: Folding, s: string, inner: string)
    requires s == "<" + inner + ">"
    requires IsTagName(f, Strip(DropTrailingSlash(DropLeadingSlash(inner))))
    ensures IsToken(f, s)
  {
    assert s[1..|s| - 1] == inner;
  }

  lemma NameOfDelimiters(tag: string)
    requires Bare(tag)
    ensures Strip(tag) == tag && DropTrailingSlash(tag) == tag
    ensures DropLeadingSlash(tag) == tag && DropLeadingSlash("/" + tag) == tag
    ensures CloseTag(tag) == "<" + ("/" + tag) + ">"
  {
    assert ("/" + tag)[1..] == tag;
  }

  /** A delimiter is recognized whole, whatever follows it. */
  lemma DelimiterLength(f: Folding, token: string, s: string)
    requires Sane(f) && IsToken(f, token) && token <= s
    ensures TokenLength(f, s) == |token|
  {
    assert s[..|token|] == token;
    TokenLengthIsTheMatch(f, s, |token|);
  }

  lemma EndsBefore(s: string, n: nat, m: nat)
    requires 0 < n <= |s| && m + 1 < |s|
    requires s[..n][n - 1] == '>' && forall i | 0 < i < n :: s[..n][i] != '<'
    requires s[m] == '\n' && s[m + 1] == '<'
    ensures n <= m
  {
    assert forall i | 0 <= i < n :: s[i] == s[..n][i];
  }

  lemma TokenHasOneBracket(f: Folding, token: string)
    requires Sane(f) && IsToken(f, token)
    ensures token[0] == '<' && token[|token| - 1] == '>' && forall i | 0 < i < |token| :: token[i] != '<'
  {
    TokenInterior(f, token);
  }

  /** No token starts in token-free text that is followed by a newline and another token's bracket. */
  lemma NoTokenBeforeNextBracket(f: Folding, inside: string, i: nat, s: string)
    requires Sane(f) && TokenFree(f, inside) && i < |inside|
    requires |inside| - i + 1 < |s| && inside[i..] <= s && s[|inside| - i] == '\n' && s[|inside| - i + 1] == '<'
    ensures TokenLength(f, s) == 0
  {
    var n := TokenLength(f, s);
    if n > 0 {
      TokenLengthIsTheMatch(f, s, n);
      TokenHasOneBracket(f, s[..n]);
      EndsBefore(s, n, |inside| - i);
      assert s[..n] == inside[i..][..n];
      TokenLengthIsTheMatch(f, inside[i..], n);
    }
  }

  lemma NoBracketNoToken(f: Folding, s: string, i: nat)
    requires i < |s| && s[i] != '<'
    ensures TokenLength(f, s[i..]) == 0
  {
    if TokenLength(f, s[i..]) > 0 {
      StartsWithBracket(f, s[i..]);
    }
  }

  /** w is the block of these three parts, each on lines of its own. */
  ghost predicate Laid(w: string, open: string, inside: string, close: string) {
    && |w| == |open| + |inside| + |close| + 2
    && open <= w
    && w[|open|] == '\n' && w[|open| + 1 + |inside|] == '\n'
    && inside <= w[|open| + 1..]
    && w[|open| + |inside| + 2..] == close
  }

  lemma BlockIsLaid(open: string, inside: string, close: string)
    ensures Laid(Block(open, inside, close), open, inside, close)
  {
    var w := Block(open, inside, close);
    assert w[|open| + 1..] == inside + ("\n" + close);
    assert w[|open| + |inside| + 2..] == close;
  }

  /** Outside its body and its two delimiters' first characters, a block has no bracket. */
  lemma BlockFrame(open: string, inside: string, close: string, w: string, i: nat)
    requires Laid(w, open, inside, close) && i < |w|
    requires forall k | 0 < k < |open| :: open[k] != '<'
    requires forall k | 0 < k < |close| :: close[k] != '<'
    requires i != 0 && i != |open| + |inside| + 2 && !(|open| < i <= |open| + |inside|)
    ensures w[i] != '<'
  {
    if i < |open| {
      assert w[i] == open[i];
    } else if i > |open| + |inside| + 2 {
      assert w[i] == close[i - |open| - |inside| - 2];
    }
  }

  lemma FromBody(w: string, open: string, inside: string, close: string, i: nat)
    requires Laid(w, open, inside, close) && close != [] && |open| < i <= |open| + |inside|
    ensures var s, k := w[i..], i - |open| - 1;
            && |inside| - k + 1 < |s| && inside[k..] <= s
            && s[|inside| - k] == '\n' && s[|inside| - k + 1] == close[0]
  {
    var body, k := w[|open| + 1..], i - |open| - 1;
    assert body[k..] == w[i..];
    assert body[|inside| + 1] == w[|open| + |inside| + 2..][0];
    assert body[..|inside|] == inside;
  }

  lemma NoTokenInBody(f: Folding, open: string, inside: string, close: string, w: string, i: nat)
    requires Sane(f) && TokenFree(f, inside) && IsToken(f, close) && Laid(w, open, inside, close)
    requires |open| < i <= |open| + |inside|
    ensures TokenLength(f, w[i..]) == 0
  {
    FromBody(w, open, inside, close, i);
    NoTokenBeforeNextBracket(f, inside, i - |open| - 1, w[i..]);
  }

  lemma NoTokenInside(f: Folding, open: string, inside: string, close: string, w: string, i: nat)
    requires Sane(f) && TokenFree(f, inside) && IsToken(f, open) && IsToken(f, close) && Laid(w, open, inside, close)
    requires 0 < i < |w| && i != |open| + |inside| + 2
    ensures TokenLength(f, w[i..]) == 0
  {
    if |open| < i <= |open| + |inside| {
      NoTokenInBody(f, open, inside, close, w, i);
    } else {
      TokenHasOneBracket(f, open);
      TokenHasOneBracket(f, close);
      BlockFrame(open, inside, close, w, i);
      NoBracketNoToken(f, w, i);
    }
  }

  /** Exactly two tokens: one at the start, of the given length, and one from `close` to the end. */
  ghost predicate TwoTokens(f: Folding, w: string, open: nat, close: nat) {
    && open <= close <= |w|
    && TokenLength(f, w) == open
    && close + TokenLength(f, w[close..]) == |w|
    && forall i | 0 < i < |w| && i != close :: TokenLength(f, w[i..]) == 0
  }

  lemma BlockHasTwoTokens(f: Folding, open: string, inside: string, close: string, w: string)
    requires Sane(f) && TokenFree(f, inside) && IsToken(f, open) && IsToken(f, close) && Laid(w, open, inside, close)
    ensures TwoTokens(f, w, |open|, |open| + |inside| + 2)
  {
    DelimiterLength(f, open, w);
    DelimiterLength(f, close, w[|open| + |inside| + 2..]);
    forall i | 0 < i < |w| && i != |open| + |inside| + 2 ensures TokenLength(f, w[i..]) == 0 {
      NoTokenInside(f, open, inside, close, w, i);
    }
  }

  /** A wrapped block contains exactly two tokens: its opening delimiter at 0 and its closing one at the end. */
  lemma WrappedBlockHasTwoTokens(f: Folding, tag: string, body: string)
    requires Sane(f) && tag in ALL_PROMPT_TAGS
    ensures TwoTokens(f, WrapBlock(f, tag, body), |OpenTag(tag)|, |OpenTag(tag)| + |Neutralize(f, body)| + 2)
  {
    var open, inside, close := OpenTag(tag), Neutralize(f, body), CloseTag(tag);
    NeutralizedIsTokenFree(f, body);
    DelimitersAreTokens(f, tag);
    BlockIsLaid(open, inside, close);
    BlockHasTwoTokens(f, open, inside, close, WrapBlock(f, tag, body));
  }

  /** A text with two tokens, one at each end, reads as what lies between. */
  lemma UnwrapTwoTokens(f: Folding, w: string, open: nat, close: nat, reading: Reading)
    requires TwoTokens(f, w, open, close) && 2 <= open && close < |w|
    requires Between(w, open, close) == reading
    ensures Unwrap(f, w) == reading
  {
    NextTokenIs(f, w, open, close);
  }

  lemma BetweenDelimiters(w: string, open: string, inside: string, close: string)
    requires Laid(w, open, inside, close) && 2 <= |open|
    ensures Between(w, |open|, |open| + |inside| + 2) == Reading(open[1..|open| - 1], inside)
  {
    assert w[1..|open| - 1] == open[1..|open| - 1];
    assert w[|open| + 1..|open| + |inside| + 1] == w[|open| + 1..][..|inside|] == inside;
  }

  lemma BlockReads(open: string, inside: string, close: string)
    requires 2 <= |open| && close != []
    ensures |open| + |inside| + 2 < |Block(open, inside, close)|
    ensures Between(Block(open, inside, close), |open|, |open| + |inside| + 2) == Reading(open[1..|open| - 1], inside)
  {
    BlockIsLaid(open, inside, close);
    BetweenDelimiters(Block(open, inside, close), open, inside, close);
  }

  lemma TagOfDelimiter(tag: string)
    ensures |OpenTag(tag)| >= 2 && OpenTag(tag)[1..|OpenTag(tag)| - 1] == tag
    ensures CloseTag(tag) != []
  {
  }

  /** The block around this body, however it came about, reads as its tag and that body. */
  lemma TaggedBlockReads(tag: string, inside: string, w: string, open: nat, close: nat)
    requires w == Block(OpenTag(tag), inside, CloseTag(tag))
    requires open == |OpenTag(tag)| && close == open + |inside| + 2
    ensures 2 <= open && close < |w| && Between(w, open, close) == Reading(tag, inside)
  {
    TagOfDelimiter(tag);
    BlockReads(OpenTag(tag), inside, CloseTag(tag));
  }

  lemma WrappedBlockUnwraps(f: Folding, tag: string, body: string, w: string, open: nat, close: nat, reading: Reading)
    requires Sane(f) && tag in ALL_PROMPT_TAGS && w == WrapBlock(f, tag, body)
    requires open == |OpenTag(tag)| && close == open + |Neutralize(f, body)| + 2 && 2 <= open && close < |w|
    requires Between(w, open, close) == reading
    ensures Unwrap(f, w) == reading
  {
    assert TwoTokens(f, w, open, close) by {
      WrappedBlockHasTwoTokens(f, tag, body);
    }
    UnwrapTwoTokens(f, w, open, close, reading);
  }

  /** The block: the body, neutralized, on lines of its own between its delimiters. */
  lemma WrappedLayout(f: Folding, tag: string, body: string)
    ensures WrapBlock(f, tag, body) == "<" + tag + ">" + ("\n" + (Neutralize(f, body) + ("\n" + ("</" + tag + ">"))))
  {
  }

  /** Reading a wrapped block returns its tag and the neutralized body, for every body. */
  lemma UnwrapWrap(f: Folding, tag: string, body: string)
    requires Sane(f) && tag in ALL_PROMPT_TAGS
    ensures Unwrap(f, WrapBlock(f, tag, body)) == Reading(tag, Neutralize(f, body))
  {
    var w, inside := WrapBlock(f, tag, body), Neutralize(f, body);
    var open := |OpenTag(tag)|;
    TaggedBlockReads(tag, inside, w, open, open + |inside| + 2);
    WrappedBlockUnwraps(f, tag, body, w, open, open + |inside| + 2, Reading(tag, inside));
  }

  /** Blocks are equal only when their tags and neutralized bodies are: a body cannot pose as another block. */
  lemma WrapDistinguishes(f: Folding, tag: string, body: string, tag': string, body': string)
    requires Sane(f) && tag in ALL_PROMPT_TAGS && tag' in ALL_PROMPT_TAGS
    ensures WrapBlock(f, tag, body) == WrapBlock(f, tag', body') <==> tag == tag' && Neutralize(f, body) == Neutralize(f, body')
  {
    UnwrapWrap(f, tag, body);
    UnwrapWrap(f, tag', body');
  }
}
