/** Which mapping keys the evaluation API treats as private. */
module PrivateKeys {
  import Text

  const MARKERS: set<string> := {
    "authorization", "credential", "password", "secret", "token", "content", "prompt", "question", "reply", "answer", "transcript"}

  const COMPACTS: set<string> := {"apikey", "accesstoken"}

  /** `[a-z0-9]` */
  predicate Alnum(c: char) {
    'a' <= c <= 'z' || '0' <= c <= '9'
  }

  // ---- the pipeline ----

  /** How many characters at the front are (not) alphanumeric. */
  function RunLength(s: string, alnum: bool): (n: nat)
    ensures n <= |s|
    ensures forall i | 0 <= i < n :: Alnum(s[i]) == alnum
    ensures n < |s| ==> Alnum(s[n]) != alnum
  {
    if s != [] && Alnum(s[0]) == alnum then 1 + RunLength(s[1..], alnum) else 0
  }

  /** `re.sub(r"[^a-z0-9]+", "_", s)` */
  function Underscored(s: string): string
    decreases |s|
  {
    if s == [] then []
    else if Alnum(s[0]) then [s[0]] + Underscored(s[1..])
    else ['_'] + Underscored(s[RunLength(s, false)..])
  }

  /** `t.strip("_")` */
  function StripLeft(t: string): string {
    if t != [] && t[0] == '_' then StripLeft(t[1..]) else t
  }

  function StripRight(t: string): string {
    if t != [] && t[|t| - 1] == '_' then StripRight(t[..|t| - 1]) else t
  }

  function IndexOfUnderscore(t: string): (n: nat)
    ensures n <= |t|
    ensures '_' !in t[..n]
    ensures n < |t| ==> t[n] == '_'
  {
    if t == [] || t[0] == '_' then 0 else 1 + IndexOfUnderscore(t[1..])
  }

  /** `t.split("_")`, keeping the non-empty parts. */
  function Parts(t: string): seq<string>
    decreases |t|
  {
    var n := IndexOfUnderscore(t);
    var first := if n == 0 then [] else [t[..n]];
    if n == |t| then first else first + Parts(t[n + 1..])
  }

  /** `t.replace("_", "")` */
  function Compact(t: string): string {
    if t == [] then []
    else (if t[0] == '_' then [] else [t[0]]) + Compact(t[1..])
  }

  function Normalized(lower: string -> string, key: string): string {
    StripRight(StripLeft(Underscored(lower(key))))
  }

  predicate IsPrivateKey(lower: string -> string, key: string) {
    var normalized := Normalized(lower, key);
    || (exists marker | marker in COMPACTS :: Text.Contains(Compact(normalized), marker))
    || (exists part | part in Parts(normalized) :: part in MARKERS)
  }

  // ---- what it recognises ----

  /** The maximal alphanumeric runs. */
  function Words(s: string): seq<string>
    decreases |s|
  {
    if s == [] then []
    else if !Alnum(s[0]) then Words(s[1..])
    else
      var n := RunLength(s, true);
      [s[..n]] + Words(s[n..])
  }

  function Letters(s: string): string {
    if s == [] then []
    else (if Alnum(s[0]) then [s[0]] else []) + Letters(s[1..])
  }

  /** The word occurs at position i with no alphanumeric character on either side. */
  predicate StandsAlone(s: string, word: string, i: nat) {
    && i + |word| <= |s|
    && s[i..i + |word|] == word
    && (i == 0 || !Alnum(s[i - 1]))
    && (i + |word| == |s| || !Alnum(s[i + |word|]))
  }

  predicate AllAlnum(s: string) {
    forall c | c in s :: Alnum(c)
  }

  predicate AlnumOrUnderscore(t: string) {
    forall i | 0 <= i < |t| :: Alnum(t[i]) || t[i] == '_'
  }

  lemma {:induction false} WordsSkipGap(s: string, n: nat)
    requires n <= |s| && forall i | 0 <= i < n :: !Alnum(s[i])
    ensures Words(s) == Words(s[n..])
    ensures Letters(s) == Letters(s[n..])
  {
    if n > 0 {
      WordsSkipGap(s[1..], n - 1);
      assert s[1..][n - 1..] == s[n..];
    } else {
      assert s[0..] == s;
    }
  }

  lemma {:induction false} UnderscoredRun(s: string, n: nat)
    requires n <= |s| && forall i | 0 <= i < n :: Alnum(s[i])
    ensures Underscored(s) == s[..n] + Underscored(s[n..])
  {
    if n > 0 {
      var tail := s[1..];
      UnderscoredRun(tail, n - 1);
      assert tail[n - 1..] == s[n..];
      assert s[..n] == [s[0]] + tail[..n - 1];
    } else {
      assert s[0..] == s;
    }
  }

  lemma {:induction false} LettersRun(s: string, n: nat)
    requires n <= |s| && forall i | 0 <= i < n :: Alnum(s[i])
    ensures Letters(s) == s[..n] + Letters(s[n..])
  {
    if n > 0 {
      var tail := s[1..];
      LettersRun(tail, n - 1);
      assert tail[n - 1..] == s[n..];
      assert s[..n] == [s[0]] + tail[..n - 1];
    } else {
      assert s[0..] == s;
    }
  }

  lemma WordsOfRun(run: string, rest: string)
    requires run != [] && AllAlnum(run)
    requires rest == [] || !Alnum(rest[0])
    ensures Words(run + rest) == [run] + Words(rest)
  {
    var s := run + rest;
    var n := RunLength(s, true);
    assert forall k | 0 <= k < |run| :: s[k] == run[k] && run[k] in run;
    assert rest != [] ==> s[|run|] == rest[0];
    assert s[..n] == run && s[n..] == rest;
  }

  /** s starts with a run of one kind: alphanumeric or not. */
  function FirstRun(s: string): (n: nat)
    requires s != []
    ensures 0 < n <= |s|
    ensures forall i | 0 <= i < n :: Alnum(s[i]) == Alnum(s[0])
    ensures n < |s| ==> Alnum(s[n]) != Alnum(s[0])
  {
    RunLength(s, Alnum(s[0]))
  }

  lemma UnderscoredFirstRun(s: string)
    requires s != []
    ensures Underscored(s) == (if Alnum(s[0]) then s[..FirstRun(s)] else ['_']) + Underscored(s[FirstRun(s)..])
  {
    if Alnum(s[0]) {
      UnderscoredRun(s, FirstRun(s));
    }
  }

  lemma {:induction false} UnderscoredAlphabet(s: string)
    ensures AlnumOrUnderscore(Underscored(s))
    ensures s != [] && !Alnum(s[0]) ==> Underscored(s)[0] == '_'
    decreases |s|
  {
    if s != [] {
      UnderscoredFirstRun(s);
      UnderscoredAlphabet(s[FirstRun(s)..]);
    }
  }

  lemma {:induction false} UnderscoredWords(s: string)
    ensures Words(Underscored(s)) == Words(s)
    decreases |s|
  {
    if s != [] {
      var n := FirstRun(s);
      var run, rest := s[..n], s[n..];
      assert s == run + rest;
      UnderscoredFirstRun(s);
      UnderscoredWords(rest);
      if Alnum(s[0]) {
        RunIsAlnum(s, n);
        UnderscoredAlphabet(rest);
        WordsOfRun(run, rest);
        WordsOfRun(run, Underscored(rest));
      } else {
        WordsSkipGap(s, n);
        WordsSkipGap(['_'] + Underscored(rest), 1);
      }
    }
  }

  lemma {:induction false} UnderscoredLetters(s: string)
    ensures Letters(Underscored(s)) == Letters(s)
    decreases |s|
  {
    if s != [] {
      var n := FirstRun(s);
      var run, rest := s[..n], s[n..];
      assert s == run + rest;
      UnderscoredFirstRun(s);
      UnderscoredLetters(rest);
      if Alnum(s[0]) {
        RunIsAlnum(s, n);
        LettersOfRun(run, rest);
        LettersOfRun(run, Underscored(rest));
      } else {
        WordsSkipGap(s, n);
        WordsSkipGap(['_'] + Underscored(rest), 1);
      }
    }
  }

  lemma RunIsAlnum(s: string, n: nat)
    requires n <= |s| && forall i | 0 <= i < n :: Alnum(s[i])
    ensures AllAlnum(s[..n])
  {
  }

  lemma LettersOfRun(run: string, rest: string)
    requires AllAlnum(run)
    ensures Letters(run + rest) == run + Letters(rest)
  {
    var s := run + rest;
    assert forall i | 0 <= i < |run| :: s[i] == run[i] && run[i] in run;
    LettersRun(s, |run|);
    assert s[..|run|] == run && s[|run|..] == rest;
  }

  lemma {:induction false} TrailingUnderscore(t: string)
    ensures Words(t + ['_']) == Words(t)
    ensures Letters(t + ['_']) == Letters(t)
    decreases |t|
  {
    if t != [] {
      if !Alnum(t[0]) {
        TrailingUnderscore(t[1..]);
        assert (t + ['_'])[1..] == t[1..] + ['_'];
      } else {
        var n := RunLength(t, true);
        var run, rest := t[..n], t[n..];
        assert n > 0 && t == run + rest;
        assert forall c | c in run :: Alnum(c);
        TrailingUnderscore(rest);
        assert t + ['_'] == run + (rest + ['_']);
        WordsOfRun(run, rest + ['_']);
        LettersOfRun(run, rest + ['_']);
        LettersOfRun(run, rest);
      }
    }
  }

  lemma {:induction false} StripLeftKeeps(t: string)
    ensures Words(StripLeft(t)) == Words(t) && Letters(StripLeft(t)) == Letters(t)
    ensures AlnumOrUnderscore(t) ==> AlnumOrUnderscore(StripLeft(t))
  {
    if t != [] && t[0] == '_' {
      StripLeftKeeps(t[1..]);
    }
  }

  lemma {:induction false} StripRightKeeps(t: string)
    ensures Words(StripRight(t)) == Words(t) && Letters(StripRight(t)) == Letters(t)
    ensures AlnumOrUnderscore(t) ==> AlnumOrUnderscore(StripRight(t))
  {
    if t != [] && t[|t| - 1] == '_' {
      StripRightKeeps(t[..|t| - 1]);
      TrailingUnderscore(t[..|t| - 1]);
      assert t == t[..|t| - 1] + ['_'];
    }
  }

  lemma NoUnderscoreIsAlnum(t: string, n: nat)
    requires AlnumOrUnderscore(t) && n <= |t| && '_' !in t[..n]
    ensures AllAlnum(t[..n])
  {
    forall c | c in t[..n] ensures Alnum(c) {
      var i :| 0 <= i < n && t[..n][i] == c;
      assert t[i] == c;
    }
  }

  lemma WordsBeforeUnderscore(t: string, n: nat)
    requires AlnumOrUnderscore(t) && n <= |t| && '_' !in t[..n] && (n < |t| ==> t[n] == '_')
    ensures Words(t) == (if n == 0 then [] else [t[..n]]) + Words(t[n..])
  {
    assert t == t[..n] + t[n..];
    if n > 0 {
      NoUnderscoreIsAlnum(t, n);
      WordsOfRun(t[..n], t[n..]);
    }
  }

  lemma {:induction false} PartsAreWords(t: string)
    requires AlnumOrUnderscore(t)
    ensures Parts(t) == Words(t)
    decreases |t|
  {
    var n := IndexOfUnderscore(t);
    WordsBeforeUnderscore(t, n);
    if n < |t| {
      WordsSkipGap(t[n..], 1);
      assert t[n..][1..] == t[n + 1..];
      PartsAreWords(t[n + 1..]);
    }
  }

  lemma {:induction false} CompactIsLetters(t: string)
    requires AlnumOrUnderscore(t)
    ensures Compact(t) == Letters(t)
  {
    if t != [] {
      CompactIsLetters(t[1..]);
    }
  }

  /** Whole-word occurrences are exactly the members of the list of words. */
  lemma {:induction false} WordOccursIff(s: string, word: string)
    requires word != [] && AllAlnum(word)
    ensures word in Words(s) <==> exists i: nat :: StandsAlone(s, word, i)
    decreases |s|
  {
    if s != [] {
      if !Alnum(s[0]) {
        WordOccursIff(s[1..], word);
        if i: nat :| StandsAlone(s[1..], word, i) {
          assert StandsAlone(s, word, i + 1);
        }
        if i: nat :| StandsAlone(s, word, i) {
          NoWordAtGap(s, word, 0);
          assert StandsAlone(s[1..], word, i - 1);
        }
      } else {
        var n := RunLength(s, true);
        WordOccursIff(s[n..], word);
        LeadingWord(s, word, n);
      }
    }
  }

  /** The word at the very front of s is its leading run. */
  lemma WordInFront(s: string, word: string, n: nat)
    requires word != [] && AllAlnum(word)
    requires n == RunLength(s, true)
    ensures StandsAlone(s, word, 0) <==> word == s[..n]
  {
    if StandsAlone(s, word, 0) {
      assert forall k | 0 <= k < |word| :: s[k] == word[k] && word[k] in word;
    }
  }

  lemma WordShifted(s: string, rest: string, word: string, n: nat, i: nat)
    requires n < i && n <= |s| && rest == s[n..]
    ensures StandsAlone(s, word, i) <==> StandsAlone(rest, word, i - n)
  {
    if i + |word| <= |s| {
      assert s[i..i + |word|] == rest[i - n..i - n + |word|];
    }
  }

  /** A word cannot start where a non-alphanumeric character stands. */
  lemma NoWordAtGap(s: string, word: string, i: nat)
    requires word != [] && AllAlnum(word)
    requires i < |s| ==> !Alnum(s[i])
    ensures !StandsAlone(s, word, i)
  {
    assert word[0] in word;
  }

  /** Any other word stands behind the leading run. */
  lemma WordBehind(s: string, word: string, n: nat, i: nat)
    requires word != [] && AllAlnum(word)
    requires 0 < n <= |s| && n == RunLength(s, true) && i > 0
    ensures StandsAlone(s, word, i) <==> i >= n && StandsAlone(s[n..], word, i - n)
  {
    if i < n {
      assert Alnum(s[i - 1]);
    } else if i == n {
      NoWordAtGap(s, word, n);
      NoWordAtGap(s[n..], word, 0);
    } else {
      WordShifted(s, s[n..], word, n, i);
    }
  }

  lemma LeadingWord(s: string, word: string, n: nat)
    requires word != [] && AllAlnum(word)
    requires 0 < n <= |s| && n == RunLength(s, true)
    ensures (exists i: nat :: StandsAlone(s, word, i)) <==> word == s[..n] || exists i: nat :: StandsAlone(s[n..], word, i)
  {
    WordInFront(s, word, n);
    if i: nat :| StandsAlone(s[n..], word, i) {
      WordBehind(s, word, n, n + i);
    }
    if i: nat :| StandsAlone(s, word, i) {
      if i > 0 {
        WordBehind(s, word, n, i);
      }
    }
  }

  lemma PrivateByWords(lower: string -> string, key: string)
    ensures IsPrivateKey(lower, key) <==>
            || (exists marker, i: nat :: marker in MARKERS && StandsAlone(lower(key), marker, i))
            || (exists marker | marker in COMPACTS :: Text.Contains(Letters(lower(key)), marker))
  {
    var s := lower(key);
    var t := Underscored(s);
    UnderscoredAlphabet(s);
    UnderscoredWords(s);
    UnderscoredLetters(s);
    StripLeftKeeps(t);
    StripRightKeeps(StripLeft(t));
    PartsAreWords(Normalized(lower, key));
    CompactIsLetters(Normalized(lower, key));
    MarkersAreWords();
    forall marker | marker in MARKERS ensures marker in Words(s) <==> exists i: nat :: StandsAlone(s, marker, i) {
      WordOccursIff(s, marker);
    }
  }

  predicate IsMarker(word: string) {
    word in {"authorization", "credential", "password", "secret", "token", "content", "prompt", "question", "reply", "answer",
             "transcript"}
  }

  lemma MarkersAre()
    ensures forall word :: word in MARKERS <==> IsMarker(word)
    ensures COMPACTS == {"apikey", "accesstoken"}
  {
  }

  /**
   A key is private exactly when one of eleven markers stands in it as a whole word, or its alphanumeric
   characters, run together, contain one of two compact markers.
   */
  lemma PrivateKeyIff(lower: string -> string, key: string)
    ensures IsPrivateKey(lower, key) <==>
            || (exists marker, i: nat :: IsMarker(marker) && StandsAlone(lower(key), marker, i))
            || (exists i: nat :: Text.OccursAt(Letters(lower(key)), "apikey", i))
            || (exists i: nat :: Text.OccursAt(Letters(lower(key)), "accesstoken", i))
  {
    PrivateByWords(lower, key);
    MarkersAre();
    Text.ContainsIff(Letters(lower(key)), "apikey");
    Text.ContainsIff(Letters(lower(key)), "accesstoken");
  }

  lemma MarkersAreWords()
    ensures forall marker | marker in MARKERS :: marker != [] && AllAlnum(marker)
  {
  }
}
