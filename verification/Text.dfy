/** Character facts about Python strings that several components rely on. */
module Text {

  /** Exactly the characters for which `str.isspace` holds: what `str.strip` removes and `\s` matches. */
  predicate IsSpace(c: char) {
    || '\U{0009}' <= c <= '\U{000D}'
    || '\U{001C}' <= c <= '\U{0020}'
    || '\U{2000}' <= c <= '\U{200A}'
    || c in {'\U{0085}', '\U{00A0}', '\U{1680}', '\U{2028}', '\U{2029}', '\U{202F}', '\U{205F}', '\U{3000}'}
  }

  /** `not text.strip()` */
  predicate Blank(text: string) {
    forall c | c in text :: IsSpace(c)
  }

  function StripLeft(text: string): string {
    if text != [] && IsSpace(text[0]) then StripLeft(text[1..]) else text
  }

  function StripRight(text: string): string {
    if text != [] && IsSpace(text[|text| - 1]) then StripRight(text[..|text| - 1]) else text
  }

  function Strip(text: string): string {
    StripRight(StripLeft(text))
  }

  /** `needle in text` */
  predicate Contains(text: string, needle: string) {
    needle <= text || (text != [] && Contains(text[1..], needle))
  }

  predicate OccursAt(text: string, needle: string, k: nat) {
    k + |needle| <= |text| && text[k..k + |needle|] == needle
  }

  lemma {:induction false} ContainsIff(text: string, needle: string)
    ensures Contains(text, needle) <==> exists k: nat :: OccursAt(text, needle, k)
  {
    assert needle <= text <==> OccursAt(text, needle, 0);
    if text != [] {
      var rest := text[1..];
      ContainsIff(rest, needle);
      forall k: nat ensures OccursAt(rest, needle, k) <==> OccursAt(text, needle, k + 1) {
        if k + |needle| <= |rest| {
          assert rest[k..k + |needle|] == text[k + 1..k + 1 + |needle|];
        }
      }
      if k: nat :| OccursAt(text, needle, k) && k > 0 {
        assert OccursAt(rest, needle, k - 1);
      }
      if k: nat :| OccursAt(rest, needle, k) {
        assert OccursAt(text, needle, k + 1);
      }
    }
  }

  /** What is left of the text when only space is cut off, and all of it, at either end. */
  ghost predicate Trimmed(text: string, r: string) {
    exists left, right :: TrimmedOf(text, left, r, right)
  }

  predicate TrimmedOf(text: string, left: string, r: string, right: string) {
    && text == left + r + right
    && (forall c | c in left :: IsSpace(c))
    && (forall c | c in right :: IsSpace(c))
    && (r != [] ==> !IsSpace(r[0]) && !IsSpace(r[|r| - 1]))
  }

  lemma {:induction false} StripLeftSplits(text: string) returns (spaces: string)
    ensures text == spaces + StripLeft(text) && Blank(spaces)
    ensures StripLeft(text) != [] ==> !IsSpace(StripLeft(text)[0])
  {
    if text != [] && IsSpace(text[0]) {
      var rest := StripLeftSplits(text[1..]);
      spaces := [text[0]] + rest;
    } else {
      spaces := [];
    }
  }

  lemma {:induction false} StripRightSplits(text: string) returns (spaces: string)
    ensures text == StripRight(text) + spaces && Blank(spaces)
    ensures StripRight(text) != [] ==> !IsSpace(StripRight(text)[|StripRight(text)| - 1])
  {
    if text != [] && IsSpace(text[|text| - 1]) {
      var rest := StripRightSplits(text[..|text| - 1]);
      spaces := rest + [text[|text| - 1]];
    } else {
      spaces := [];
    }
  }

  lemma StripTrims(text: string)
    ensures Trimmed(text, Strip(text))
  {
    var left := StripLeftSplits(text);
    var right := StripRightSplits(StripLeft(text));
    assert Strip(text) != [] ==> Strip(text)[0] == StripLeft(text)[0];
    assert TrimmedOf(text, left, Strip(text), right);
  }
}
