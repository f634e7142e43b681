/**
 * The incorrect-data generator of data/generate_incorrect_data.py. Every
 * `random.*` call becomes a draw passed in as a parameter, constrained by
 * `requires` to the range the call can return; what is proved holds for
 * every such draw. The distribution of the draws is not modelled.
 */
module GenerateIncorrectData {
  import opened Wrappers
  import opened PyStr
  import opened Dataset
  import Functions

  // ---------------------------------------------------------------------------
  // Alphabets and random strings
  // ---------------------------------------------------------------------------

  /** `string.ascii_lowercase[i]`. */
  function LowercaseAt(i: nat): char
    requires i < 26
  {
    (('a' as int) + i) as char
  }

  /** `string.ascii_lowercase` and `string.ascii_uppercase`; `string.ascii_letters` is the two together. */
  const AsciiLowercase: string := "abcdefghijklmnopqrstuvwxyz"
  const AsciiUppercase: string := "ABCDEFGHIJKLMNOPQRSTUVWXYZ"

  const Digits: string := "0123456789"

  /** The punctuation and control characters of GARBAGE_CHARS, which follow its one space. */
  const Punctuation: string := "!@#$%^&*()_+-=,./<>?;:[]{}|\n\t\r"

  /** The non-ASCII letters and signs at the end of GARBAGE_CHARS. */
  const NonAscii: string := "\U{B1}\U{A7}\U{2122}\U{A9}\U{20AC}\U{E6}\U{F8}\U{E5}\U{430}\U{431}\U{432}\U{433}\U{434}"

  /** GARBAGE_CHARS: letters, digits, a space, punctuation, three control characters and some non-ASCII letters. */
  const GarbageChars: string := AsciiLowercase + AsciiUppercase + Digits + " " + Punctuation + NonAscii

  /** The characters `random_string` chooses from: GARBAGE_CHARS, without the space unless spaces are allowed. */
  function Alphabet(allowSpaces: bool): string {
    if allowSpaces then GarbageChars else AsciiLowercase + AsciiUppercase + Digits + Punctuation + NonAscii
  }

  /** The letters and digits before the one space of GARBAGE_CHARS hold no space. */
  lemma NoSpaceInLetters()
    ensures ' ' !in AsciiLowercase + AsciiUppercase + Digits
  {
    assert ' ' !in AsciiLowercase;
    assert ' ' !in AsciiUppercase;
  }

  /** The signs after the one space of GARBAGE_CHARS hold no space. */
  lemma NoSpaceInSigns()
    ensures ' ' !in Punctuation + NonAscii
  {
    assert ' ' !in Punctuation;
  }

  /** Removing the one occurrence of `c` from `a + [c] + b`. */
  lemma DropOnlyOccurrence(a: string, c: char, b: string)
    requires c !in a && c !in b
    ensures ReplaceChar(a + [c] + b, c, "") == a + b
  {
    ReplaceCharAppend(a + [c], b, c, "");
    ReplaceCharAppend(a, [c], c, "");
    ReplaceCharAbsent(a, c, "");
    ReplaceCharAbsent(b, c, "");
    assert ReplaceChar([c], c, "") == [] by { assert [c][1..] == []; }
    assert a + [] == a;
  }

  /** Without spaces the alphabet is `GARBAGE_CHARS.replace(" ", "")`, and it holds no space. */
  lemma AlphabetWithoutSpaces()
    ensures Alphabet(false) == ReplaceChar(GarbageChars, ' ', "")
    ensures ' ' !in Alphabet(false)
  {
    NoSpaceInLetters();
    NoSpaceInSigns();
    var letters := AsciiLowercase + AsciiUppercase + Digits;
    var rest := Punctuation + NonAscii;
    assert GarbageChars == letters + [' '] + rest;
    assert Alphabet(false) == letters + rest;
    DropOnlyOccurrence(letters, ' ', rest);
  }

  /** The number of characters `random_string` chooses from. */
  function AlphabetSize(allowSpaces: bool): (n: nat)
    ensures n == |Alphabet(allowSpaces)|
  {
    if allowSpaces then 106 else 105
  }

  /** Every draw in `picks` is an index below `n`, as `random.choice` over `n` options returns. */
  predicate PicksBelow(picks: seq<nat>, n: nat) {
    forall i :: 0 <= i < |picks| ==> picks[i] < n
  }

  /** What `random_string(min_len, max_len, allow_spaces)` can return. */
  ghost predicate IsRandomString(s: string, minLen: nat, maxLen: nat, allowSpaces: bool) {
    minLen <= |s| <= maxLen && forall i :: 0 <= i < |s| ==> s[i] in Alphabet(allowSpaces)
  }

  /**
   * `random_string(min_len, max_len, allow_spaces)`: `random.randint` draws the
   * length `|picks|`, and `random.choice` draws each character index `picks[i]`.
   */
  function RandomString(minLen: nat, maxLen: nat, allowSpaces: bool, picks: seq<nat>): (r: string)
    requires minLen <= |picks| <= maxLen && PicksBelow(picks, AlphabetSize(allowSpaces))
    ensures IsRandomString(r, minLen, maxLen, allowSpaces)
    ensures !allowSpaces ==> ' ' !in r
  {
    AlphabetWithoutSpaces();
    seq(|picks|, i requires 0 <= i < |picks| => Alphabet(allowSpaces)[picks[i]])
  }

  /** Every string `random_string` can return is returned for some draw. */
  lemma RandomStringCovers(s: string, minLen: nat, maxLen: nat, allowSpaces: bool)
    requires IsRandomString(s, minLen, maxLen, allowSpaces)
    ensures exists picks ::
      (minLen <= |picks| <= maxLen && PicksBelow(picks, AlphabetSize(allowSpaces))
       && RandomString(minLen, maxLen, allowSpaces, picks) == s)
  {
    var alphabet := Alphabet(allowSpaces);
    var picks := seq(|s|, i requires 0 <= i < |s| => IndexOf(alphabet, s[i]));
    assert forall i :: 0 <= i < |s| ==> picks[i] < |alphabet| && alphabet[picks[i]] == s[i];
    assert PicksBelow(picks, AlphabetSize(allowSpaces));
    assert RandomString(minLen, maxLen, allowSpaces, picks) == s;
  }

  /** A lowercase ASCII word. */
  ghost predicate IsWord(s: string) {
    forall i :: 0 <= i < |s| ==> 'a' <= s[i] <= 'z'
  }

  /** `random_word(min_len, max_len)`: the length `|picks|` and each letter index are drawn. */
  function RandomWord(minLen: nat, maxLen: nat, picks: seq<nat>): (r: string)
    requires minLen <= |picks| <= maxLen && PicksBelow(picks, 26)
    ensures minLen <= |r| <= maxLen && IsWord(r)
  {
    seq(|picks|, i requires 0 <= i < |picks| => LowercaseAt(picks[i]))
  }

  /** Every lowercase word of an allowed length is returned by `random_word` for some draw. */
  lemma RandomWordCovers(s: string, minLen: nat, maxLen: nat)
    requires minLen <= |s| <= maxLen && IsWord(s)
    ensures exists picks :: minLen <= |picks| <= maxLen && PicksBelow(picks, 26) && RandomWord(minLen, maxLen, picks) == s
  {
    var picks: seq<nat> := seq(|s|, i requires 0 <= i < |s| => (s[i] as int - 'a' as int) as nat);
    assert RandomWord(minLen, maxLen, picks) == s;
  }

  // ---------------------------------------------------------------------------
  // random.sample
  // ---------------------------------------------------------------------------

  /** No element occurs twice. */
  ghost predicate Distinct<T>(xs: seq<T>) {
    forall i, j :: 0 <= i < j < |xs| ==> xs[i] != xs[j]
  }

  /** Draws for `random.sample(population, k)`: the i-th draw picks among the `n - i` elements left. */
  predicate SamplePicks(picks: seq<nat>, n: nat) {
    |picks| <= n && forall i :: 0 <= i < |picks| ==> picks[i] < n - i
  }

  /** `xs` without its `k`-th element. */
  function RemoveAt<T>(xs: seq<T>, k: nat): (r: seq<T>)
    requires k < |xs|
    ensures |r| == |xs| - 1
    ensures multiset(xs) == multiset(r) + multiset{xs[k]}
    ensures Distinct(xs) ==> Distinct(r) && xs[k] !in r
  {
    var r := xs[..k] + xs[k + 1..];
    assert xs == xs[..k] + [xs[k]] + xs[k + 1..];
    assert forall i :: 0 <= i < |r| ==> r[i] == xs[if i < k then i else i + 1];
    r
  }

  /** `random.sample(pop, |picks|)`: each draw takes one of the elements not yet taken. */
  function Sample<T>(pop: seq<T>, picks: seq<nat>): (r: seq<T>)
    requires SamplePicks(picks, |pop|)
    ensures |r| == |picks|
    ensures multiset(r) <= multiset(pop)
    ensures |picks| == |pop| ==> multiset(r) == multiset(pop)
    ensures Distinct(pop) ==> Distinct(r)
  {
    if picks == [] then []
    else
      var k := picks[0];
      var rest := RemoveAt(pop, k);
      var tail := Sample(rest, picks[1..]);
      forall x | x in tail
        ensures x in rest
      {
        assert multiset(tail)[x] > 0;
        assert multiset(rest)[x] > 0;
      }
      [pop[k]] + tail
  }

  /** Every element of a sub-multiset is an element of the larger sequence. */
  lemma SubMultisetMembers<T>(a: seq<T>, b: seq<T>)
    requires multiset(a) <= multiset(b)
    ensures forall i :: 0 <= i < |a| ==> a[i] in b
  {
    forall i | 0 <= i < |a|
      ensures a[i] in b
    {
      assert a[i] in multiset(a);
    }
  }

  // ---------------------------------------------------------------------------
  // The character transforms
  // ---------------------------------------------------------------------------

  /** The `subs` table of `homoglyph_mix`. */
  const Subs: map<char, char> := map['a' := '@', 'o' := '0', 'e' := '3', 'l' := '1', 's' := '$', 'i' := '\U{A1}']

  /** `homoglyph_mix(s)`: every character with an entry in `subs` is replaced by it. */
  function HomoglyphMix(s: string): (r: string)
    ensures |r| == |s|
    ensures forall i :: 0 <= i < |s| ==> r[i] == if s[i] in Subs then Subs[s[i]] else s[i]
    ensures forall i :: 0 <= i < |s| ==> r[i] !in Subs
  {
    if s == [] then []
    else [if s[0] in Subs then Subs[s[0]] else s[0]] + HomoglyphMix(s[1..])
  }

  /** `homoglyph_mix` is idempotent. */
  lemma HomoglyphMixIdempotent(s: string)
    ensures HomoglyphMix(HomoglyphMix(s)) == HomoglyphMix(s)
  {
    var r := HomoglyphMix(s);
    assert forall i :: 0 <= i < |r| ==> HomoglyphMix(r)[i] == r[i];
  }

  /** `ch.lower() in "aeiou"`: only the ten ASCII vowels lower-case to one of a, e, i, o, u. */
  predicate LowersToVowel(c: char) {
    c in "aeiouAEIOU"
  }

  /** No character of `s` lower-cases to a vowel. */
  ghost predicate VowelFree(s: string) {
    forall i :: 0 <= i < |s| ==> !LowersToVowel(s[i])
  }

  /** `r` can be obtained from `s` by deleting characters (checked greedily). */
  ghost predicate IsSubsequence(r: string, s: string) {
    r == [] || (s != [] && if r[0] == s[0] then IsSubsequence(r[1..], s[1..]) else IsSubsequence(r, s[1..]))
  }

  /** The number of characters of `s` that lower-case to a vowel. */
  ghost function VowelCount(s: string): nat {
    if s == [] then 0 else (if LowersToVowel(s[0]) then 1 else 0) + VowelCount(s[1..])
  }

  /**
   * `make_no_vowels(s)`: a vowel-free subsequence of `s` exactly as long as
   * the non-vowels of `s`, so every non-vowel is kept, in order.
   */
  function MakeNoVowels(s: string): (r: string)
    ensures |r| == |s| - VowelCount(s)
    ensures VowelFree(r)
    ensures IsSubsequence(r, s)
  {
    if s == [] then []
    else if LowersToVowel(s[0]) then MakeNoVowels(s[1..])
    else [s[0]] + MakeNoVowels(s[1..])
  }

  /** A vowel-free string is left as it is, so `make_no_vowels` is idempotent. */
  lemma {:induction false} MakeNoVowelsKeepsVowelFree(s: string)
    requires VowelFree(s)
    ensures MakeNoVowels(s) == s
  {
    if s != [] {
      MakeNoVowelsKeepsVowelFree(s[1..]);
      assert s == [s[0]] + s[1..];
    }
  }

  lemma MakeNoVowelsIdempotent(s: string)
    ensures MakeNoVowels(MakeNoVowels(s)) == MakeNoVowels(s)
  {
    MakeNoVowelsKeepsVowelFree(MakeNoVowels(s));
  }

  /** `[make_no_vowels(a) or "bcdf" for a in aliases]`. */
  function NoVowelAliases(aliases: seq<string>): (r: seq<string>)
    ensures |r| == |aliases|
    ensures forall i :: 0 <= i < |r| ==> r[i] != [] && VowelFree(r[i])
  {
    assert VowelFree("bcdf");
    seq(|aliases|, i requires 0 <= i < |aliases| =>
      var stripped := MakeNoVowels(aliases[i]);
      if stripped == [] then "bcdf" else stripped)
  }

  /** The noise `random.choice(["", "#", "@", "​"])` adds after each answer character. */
  const ObfuscationNoise: seq<string> := ["", "#", "@", "\U{200B}"]

  predicate IsNoise(c: char) {
    c == '#' || c == '@' || c == '\U{200B}'
  }

  /** `"".join(ch + noise for ch in answer)`, one noise draw per character. */
  function ObfuscateAnswer(answer: string, picks: seq<nat>): (r: string)
    requires |picks| == |answer| && PicksBelow(picks, 4)
    ensures |answer| <= |r| <= 2 * |answer|
  {
    if answer == [] then []
    else [answer[0]] + ObfuscationNoise[picks[0]] + ObfuscateAnswer(answer[1..], picks[1..])
  }

  /** The characters of `s` that are not noise. */
  function DropNoise(s: string): string {
    if s == [] then [] else (if IsNoise(s[0]) then [] else [s[0]]) + DropNoise(s[1..])
  }

  lemma {:induction false} DropNoiseAppend(s: string, t: string)
    ensures DropNoise(s + t) == DropNoise(s) + DropNoise(t)
  {
    if s == [] {
      assert s + t == t;
    } else {
      assert (s + t)[0] == s[0] && (s + t)[1..] == s[1..] + t;
      DropNoiseAppend(s[1..], t);
    }
  }

  /** None of the four noise choices survives `DropNoise`. */
  lemma NoiseDropped(p: nat)
    requires p < 4
    ensures DropNoise(ObfuscationNoise[p]) == []
  {
    var noise := ObfuscationNoise[p];
    assert noise == [] || (|noise| == 1 && IsNoise(noise[0]));
    if noise != [] {
      assert DropNoise(noise) == [] + DropNoise(noise[1..]);
    }
  }

  /** Deleting the noise from an obfuscated answer gives the answer back. */
  lemma {:induction false} ObfuscateRoundTrip(answer: string, picks: seq<nat>)
    requires |picks| == |answer| && PicksBelow(picks, 4)
    requires forall i :: 0 <= i < |answer| ==> !IsNoise(answer[i])
    ensures DropNoise(ObfuscateAnswer(answer, picks)) == answer
  {
    if answer != [] {
      var head := [answer[0]];
      var noise := ObfuscationNoise[picks[0]];
      var tail := ObfuscateAnswer(answer[1..], picks[1..]);
      assert ObfuscateAnswer(answer, picks) == head + noise + tail;
      DropNoiseAppend(head + noise, tail);
      DropNoiseAppend(head, noise);
      NoiseDropped(picks[0]);
      assert DropNoise(head) == head by {
        assert DropNoise(head) == head + DropNoise(head[1..]);
      }
      ObfuscateRoundTrip(answer[1..], picks[1..]);
      assert answer == head + answer[1..];
    }
  }

  /** `" ".join(ch for ch in s)`. */
  function SpaceJoin(s: string): (r: string)
    ensures |r| == if s == [] then 0 else 2 * |s| - 1
  {
    if |s| <= 1 then s else [s[0], ' '] + SpaceJoin(s[1..])
  }

  /** Deleting the spaces from a space-joined word gives the word back. */
  lemma {:induction false} SpaceJoinRoundTrip(s: string)
    requires ' ' !in s
    ensures ReplaceChar(SpaceJoin(s), ' ', "") == s
  {
    if |s| > 1 {
      assert ' ' !in s[1..] by { assert forall x :: x in s[1..] ==> x in s; }
      ReplaceCharAppend([s[0], ' '], SpaceJoin(s[1..]), ' ', "");
      SpaceJoinRoundTrip(s[1..]);
      assert ReplaceChar([s[0], ' '], ' ', "") == [s[0]];
      assert s == [s[0]] + s[1..];
    } else {
      ReplaceCharAbsent(s, ' ', "");
    }
  }

  /** The question every item starts with. */
  function SampleQuestion(answer: string): string {
    "This is a sample question mentioning " + answer + "."
  }

  /** The starting question mentions the answer, so `answer_in_context` holds of it. */
  lemma SampleQuestionMentionsAnswer(answer: string)
    ensures Functions.AnswerInContext(answer, SampleQuestion(answer))
  {
    var prefix := "This is a sample question mentioning ";
    assert SampleQuestion(answer)[|prefix|..|prefix| + |answer|] == answer;
    assert OccursAt(answer, SampleQuestion(answer), |prefix|);
  }

  function ObfuscatedQuestion(noisy: string): string {
    "This question contains " + noisy + " somewhere but obfuscated."
  }

  function BrokenQuestion(split: string): string {
    "Broken answer: " + split + " in the text."
  }

  // ---------------------------------------------------------------------------
  // missing_in_aliases
  // ---------------------------------------------------------------------------

  /** `random.choice(["x", "z", "q"])`. */
  const RenameSuffixes: string := "xzq"

  /**
   * The `missing_in_aliases` step as written: one suffix is appended when the
   * answer is an alias, so the result is still an alias exactly when the answer
   * and its one-letter extension both are.
   */
  function MissingInAliasesAsWritten(answer: string, aliases: seq<string>, suffixPick: nat): (r: string)
    requires suffixPick < 3
    ensures answer !in aliases ==> r == answer
    ensures answer in aliases ==> |r| == |answer| + 1 && r[..|answer|] == answer && r[|answer|] in RenameSuffixes
    ensures r in aliases ==> |r| == |answer| + 1 && r[..|r| - 1] in aliases
  {
    if ListContains(aliases, answer) then answer + [RenameSuffixes[suffixPick]] else answer
  }

  /** As written, the renamed answer can still be an alias: "ab" becomes "abx", which is listed too. */
  lemma MissingInAliasesAsWrittenCanMiss()
    ensures MissingInAliasesAsWritten("ab", ["abx", "ab"], 0) in ["abx", "ab"]
  {
    assert ListContains(["abx", "ab"], "ab");
    assert MissingInAliasesAsWritten("ab", ["abx", "ab"], 0) == "abx";
  }

  /** The length of the longest alias. */
  function LongestLength(aliases: seq<string>): (n: nat)
    ensures forall i :: 0 <= i < |aliases| ==> |aliases[i]| <= n
  {
    if aliases == [] then 0
    else
      var rest := LongestLength(aliases[1..]);
      if |aliases[0]| > rest then |aliases[0]| else rest
  }

  /**
   * The `missing_in_aliases` step as intended: the suffix is appended until
   * the answer is no longer an alias.
   */
  method RenameUntilMissing(answer: string, aliases: seq<string>, suffixPick: nat) returns (r: string)
    requires suffixPick < 3
    ensures r !in aliases
    ensures answer !in aliases ==> r == answer
    ensures |answer| <= |r| && r[..|answer|] == answer
    ensures forall i :: |answer| <= i < |r| ==> r[i] == RenameSuffixes[suffixPick]
  {
    r := answer;
    while ListContains(aliases, r)
      invariant |answer| <= |r| && r[..|answer|] == answer
      invariant forall i :: |answer| <= i < |r| ==> r[i] == RenameSuffixes[suffixPick]
      invariant answer !in aliases ==> r == answer
      decreases LongestLength(aliases) - |r|
    {
      r := r + [RenameSuffixes[suffixPick]];
    }
  }

  // ---------------------------------------------------------------------------
  // generate_item
  // ---------------------------------------------------------------------------

  /** The four error types `generate_item` samples from. */
  const ErrorTypeNames: seq<string> := ["answer_in_context", "normalize_question", "score_candidate", "validate_consistency"]

  /** The four error type names are pairwise different. */
  lemma ErrorTypeNamesDistinct()
    ensures Distinct(ErrorTypeNames)
  {
    var names := ErrorTypeNames;
    assert names[0][0] == 'a' && names[1][0] == 'n' && names[2][0] == 's' && names[3][0] == 'v';
  }

  /** `random.sample(ERROR_TYPES, k=random.randint(1, 3))`. */
  function ErrorTypes(picks: seq<nat>): (r: seq<string>)
    requires 1 <= |picks| <= 3 && SamplePicks(picks, 4)
    ensures 1 <= |r| <= 3
    ensures Distinct(r)
    ensures forall i :: 0 <= i < |r| ==> r[i] in ErrorTypeNames
  {
    ErrorTypeNamesDistinct();
    var r := Sample(ErrorTypeNames, picks);
    SubMultisetMembers(r, ErrorTypeNames);
    r
  }

  datatype ContextMode = Remove | Obfuscate | Split

  datatype NormalizeMode = LongNoSpace | UnicodeNoise | ControlChars

  datatype ScoreMode = NoMatch | Homoglyphs | ShortCandidate

  datatype ConsistencyMode = MissingInAliases | AliasesNoVowel | AliasesEmpty

  /** The noise characters `random.choice("!@#")` appends. */
  const NoiseChars: string := "!@#"

  /** `[a + random.choice("!@#") for a in aliases]`, the i-th draw for the i-th alias. */
  function SuffixEach(aliases: seq<string>, picks: seq<nat>): (r: seq<string>)
    requires |aliases| <= |picks| && PicksBelow(picks, 3)
    ensures |r| == |aliases|
    ensures forall i :: 0 <= i < |r| ==> r[i] == aliases[i] + [NoiseChars[picks[i]]]
  {
    seq(|aliases|, i requires 0 <= i < |aliases| => aliases[i] + [NoiseChars[picks[i]]])
  }

  /** Every draw one call of `generate_item` makes; draws of branches not taken are ignored. */
  datatype Draws = Draws(
    errorPicks: seq<nat>,           // random.sample of the error types, k = |errorPicks|
    answerPicks: seq<nat>,          // random_word(1, 8): the first answer
    aliasPicks: seq<seq<nat>>,      // random.randint(1, 3) aliases, each random_word(1, 8)
    appendAnswer: bool,             // random.random() < 0.4
    contextMode: ContextMode,
    removePicks: seq<nat>,          // random_string(30, 120)
    obfuscationPicks: seq<nat>,     // one noise choice per answer character
    normalizeMode: NormalizeMode,
    tokenPicks: seq<nat>,           // the random_string of the chosen normalize_question mode
    shufflePicks: seq<nat>,         // random.sample(token, len(token))
    scoreMode: ScoreMode,
    noMatchAnswerPicks: seq<nat>,   // random_string(8, 12, allow_spaces=False)
    noMatchAliasPicks: seq<seq<nat>>, // random.randint(1, 3) aliases, each random_string(5, 12, allow_spaces=False)
    homoglyphPick: nat,             // random.choice(aliases)
    shortPicks: seq<nat>,           // random_word(1, 1)
    consistencyMode: ConsistencyMode,
    suffixPick: nat,                // random.choice(["x", "z", "q"])
    addNoise: bool,                 // random.random() < 0.15
    noiseOnAnswer: bool,            // random.random() < 0.5
    answerNoisePick: nat,           // random.choice("!@#") for the answer
    aliasNoisePicks: seq<nat>)      // random.choice("!@#") per alias

  /** Every draw lies in the range of the `random` call it stands for. */
  predicate Feasible(d: Draws) {
    && 1 <= |d.errorPicks| <= 3 && SamplePicks(d.errorPicks, 4)
    && 1 <= |d.answerPicks| <= 8 && PicksBelow(d.answerPicks, 26)
    && 1 <= |d.aliasPicks| <= 3
    && (forall i :: 0 <= i < |d.aliasPicks| ==> 1 <= |d.aliasPicks[i]| <= 8 && PicksBelow(d.aliasPicks[i], 26))
    && 30 <= |d.removePicks| <= 120 && PicksBelow(d.removePicks, AlphabetSize(true))
    && |d.obfuscationPicks| == |d.answerPicks| && PicksBelow(d.obfuscationPicks, 4)
    && (match d.normalizeMode
        case LongNoSpace => 200 <= |d.tokenPicks| <= 800 && PicksBelow(d.tokenPicks, AlphabetSize(false))
        case UnicodeNoise => 150 <= |d.tokenPicks| <= 400 && PicksBelow(d.tokenPicks, AlphabetSize(true))
        case ControlChars => 80 <= |d.tokenPicks| <= 200 && PicksBelow(d.tokenPicks, AlphabetSize(true)))
    && |d.shufflePicks| == |d.tokenPicks| && SamplePicks(d.shufflePicks, |d.tokenPicks|)
    && 8 <= |d.noMatchAnswerPicks| <= 12 && PicksBelow(d.noMatchAnswerPicks, AlphabetSize(false))
    && 1 <= |d.noMatchAliasPicks| <= 3
    && (forall i :: 0 <= i < |d.noMatchAliasPicks| ==>
          5 <= |d.noMatchAliasPicks[i]| <= 12 && PicksBelow(d.noMatchAliasPicks[i], AlphabetSize(false)))
    && d.homoglyphPick < |d.aliasPicks| + (if d.appendAnswer then 1 else 0)
    && |d.shortPicks| == 1 && PicksBelow(d.shortPicks, 26)
    && d.suffixPick < 3
    && d.answerNoisePick < 3
    && |d.aliasNoisePicks| >= 4 && PicksBelow(d.aliasNoisePicks, 3)
  }

  /** The error type `name` was sampled for this item. */
  predicate Injects(d: Draws, name: string)
    requires Feasible(d)
  {
    ListContains(ErrorTypes(d.errorPicks), name)
  }

  /** Every string of the list has at least one character. */
  ghost predicate NonEmptyStrings(xs: seq<string>) {
    forall i :: 0 <= i < |xs| ==> |xs[i]| >= 1
  }

  /** No character of `s` has an entry in the homoglyph table. */
  ghost predicate HomoglyphFree(s: string) {
    forall i :: 0 <= i < |s| ==> s[i] !in Subs
  }

  /** The starting fields: a random answer, one to three random aliases plus sometimes the answer, and a readable question. */
  method StartItem(d: Draws) returns (question: string, answer: string, aliases: seq<string>)
    requires Feasible(d)
    ensures answer == RandomWord(1, 8, d.answerPicks)
    ensures question == SampleQuestion(answer)
    ensures |aliases| == |d.aliasPicks| + (if d.appendAnswer then 1 else 0)
    ensures forall i :: 0 <= i < |d.aliasPicks| ==> aliases[i] == RandomWord(1, 8, d.aliasPicks[i])
    ensures d.appendAnswer ==> aliases[|aliases| - 1] == answer
    ensures 1 <= |aliases| <= 4 && d.homoglyphPick < |aliases|
    ensures NonEmptyStrings(aliases)
  {
    answer := RandomWord(1, 8, d.answerPicks);
    aliases := seq(|d.aliasPicks|, i requires 0 <= i < |d.aliasPicks| => RandomWord(1, 8, d.aliasPicks[i]));
    if d.appendAnswer {
      aliases := aliases + [answer];
    }
    question := SampleQuestion(answer);
  }

  /** The "answer_in_context" block: the question stops containing the answer as one word. */
  method BreakContext(d: Draws, answer: string) returns (question: string)
    requires Feasible(d) && answer == RandomWord(1, 8, d.answerPicks)
    ensures d.contextMode == Remove ==> IsRandomString(question, 30, 120, true)
    ensures d.contextMode == Obfuscate ==>
      question == ObfuscatedQuestion(ObfuscateAnswer(answer, d.obfuscationPicks))
    ensures d.contextMode == Split ==> question == BrokenQuestion(SpaceJoin(answer))
  {
    match d.contextMode
    case Remove =>
      question := RandomString(30, 120, true, d.removePicks);
    case Obfuscate =>
      question := ObfuscatedQuestion(ObfuscateAnswer(answer, d.obfuscationPicks));
    case Split =>
      question := BrokenQuestion(SpaceJoin(answer));
  }

  /**
   * As written, the "answer_in_context" block can leave the answer in the
   * question: an obfuscation that draws no noise gives the answer back, and a
   * one-letter answer already occurs in the words of the templates.
   */
  lemma BreakContextCanKeepAnswer()
    ensures Functions.AnswerInContext("ab", ObfuscatedQuestion(ObfuscateAnswer("ab", [0, 0])))
    ensures Functions.AnswerInContext("a", BrokenQuestion(SpaceJoin("a")))
  {
    assert ObfuscateAnswer("b", [0]) == "b";
    assert ObfuscateAnswer("ab", [0, 0]) == "ab";
    assert OccursAt("ab", ObfuscatedQuestion("ab"), 23);
    assert OccursAt("a", BrokenQuestion(SpaceJoin("a")), 7);
  }

  /** The "normalize_question" block: the question becomes a long, noisy or control-character string. */
  method BreakNormalization(d: Draws) returns (question: string)
    requires Feasible(d)
    ensures d.normalizeMode == LongNoSpace ==> 200 <= |question| <= 800 && ' ' !in question
    ensures d.normalizeMode == UnicodeNoise ==>
      150 <= |question| <= 400 && forall c :: c in question ==> c in GarbageChars
    ensures d.normalizeMode == ControlChars ==> 80 <= |question| && ' ' !in question
  {
    match d.normalizeMode
    case LongNoSpace =>
      question := RandomString(200, 800, false, d.tokenPicks);
    case UnicodeNoise =>
      var token := RandomString(150, 400, true, d.tokenPicks);
      question := Sample(token, d.shufflePicks);
      forall c | c in question
        ensures c in GarbageChars
      {
        assert multiset(question)[c] > 0;
        assert multiset(token)[c] > 0;
      }
    case ControlChars =>
      var q := RandomString(80, 200, true, d.tokenPicks);
      ReplaceCharGrows(q, ' ', "\n\t");
      q := ReplaceChar(q, ' ', "\n\t");
      question := q;
  }

  /** The "score_candidate" block: the answer is replaced by noise, a homoglyph spelling of an alias, or one letter. */
  method BreakScore(d: Draws, answer: string, aliases: seq<string>) returns (answer': string, aliases': seq<string>)
    requires Feasible(d) && d.homoglyphPick < |aliases| && NonEmptyStrings(aliases) && 1 <= |aliases| <= 4
    ensures |answer'| >= 1 && 1 <= |aliases'| <= 4 && NonEmptyStrings(aliases')
    ensures d.scoreMode == NoMatch ==>
      IsRandomString(answer', 8, 12, false) && ' ' !in answer' && |aliases'| == |d.noMatchAliasPicks|
      && forall i :: 0 <= i < |aliases'| ==> IsRandomString(aliases'[i], 5, 12, false)
    ensures d.scoreMode == Homoglyphs ==>
      answer' == HomoglyphMix(aliases[d.homoglyphPick]) && aliases' == aliases && HomoglyphFree(answer')
    ensures d.scoreMode == ShortCandidate ==>
      answer' == RandomWord(1, 1, d.shortPicks) && |answer'| == 1 && IsWord(answer') && aliases' == aliases
  {
    aliases' := aliases;
    match d.scoreMode
    case NoMatch =>
      answer' := RandomString(8, 12, false, d.noMatchAnswerPicks);
      aliases' := seq(|d.noMatchAliasPicks|, i requires 0 <= i < |d.noMatchAliasPicks| =>
        RandomString(5, 12, false, d.noMatchAliasPicks[i]));
    case Homoglyphs =>
      // aliases always holds one to four words here, so the source's
      // fallback for an empty alias list is never taken
      answer' := HomoglyphMix(aliases[d.homoglyphPick]);
    case ShortCandidate =>
      answer' := RandomWord(1, 1, d.shortPicks);
  }

  /** The "validate_consistency" block: the answer leaves the aliases, or the aliases lose their vowels or vanish. */
  method BreakConsistency(d: Draws, answer: string, aliases: seq<string>) returns (answer': string, aliases': seq<string>)
    requires Feasible(d) && |answer| >= 1 && |aliases| >= 1 && NonEmptyStrings(aliases)
    ensures |answer'| >= 1 && |aliases'| <= |aliases| && NonEmptyStrings(aliases')
    ensures aliases' == [] <==> d.consistencyMode == AliasesEmpty
    ensures d.consistencyMode == AliasesNoVowel ==>
      aliases' == NoVowelAliases(aliases) && forall i :: 0 <= i < |aliases'| ==> VowelFree(aliases'[i])
    ensures d.consistencyMode == MissingInAliases ==>
      aliases' == aliases && answer' == MissingInAliasesAsWritten(answer, aliases, d.suffixPick)
    ensures d.consistencyMode != MissingInAliases ==> answer' == answer
    ensures |answer| <= |answer'| <= |answer| + 1 && answer'[..|answer|] == answer
    ensures ' ' !in answer ==> ' ' !in answer'
    ensures HomoglyphFree(answer) ==> HomoglyphFree(answer')
  {
    answer', aliases' := answer, aliases;
    match d.consistencyMode
    case MissingInAliases =>
      answer' := MissingInAliasesAsWritten(answer, aliases, d.suffixPick);
      if answer in aliases {
        assert answer' == answer + [answer'[|answer|]];
        assert answer'[|answer|] != ' ' && answer'[|answer|] !in Subs;
      }
    case AliasesNoVowel =>
      aliases' := NoVowelAliases(aliases);
    case AliasesEmpty =>
      aliases' := [];
  }

  /** The closing noise: sometimes one of "!@#" is appended to the answer or to every alias. */
  method AddNoise(d: Draws, answer: string, aliases: seq<string>) returns (answer': string, aliases': seq<string>)
    requires Feasible(d) && |aliases| <= 4 && NonEmptyStrings(aliases)
    ensures |answer| <= |answer'| <= |answer| + 1 && |aliases'| == |aliases|
    ensures !d.addNoise ==> answer' == answer && aliases' == aliases
    ensures d.addNoise && d.noiseOnAnswer ==> answer' == answer + [NoiseChars[d.answerNoisePick]] && aliases' == aliases
    ensures d.addNoise && !d.noiseOnAnswer ==> answer' == answer && aliases' == SuffixEach(aliases, d.aliasNoisePicks)
    ensures NonEmptyStrings(aliases')
    ensures forall i :: 0 <= i < |aliases| ==> |aliases[i]| <= |aliases'[i]| && aliases'[i][..|aliases[i]|] == aliases[i]
    ensures forall i :: 0 <= i < |aliases| ==> forall j :: |aliases[i]| <= j < |aliases'[i]| ==> aliases'[i][j] in NoiseChars
    ensures answer'[..|answer|] == answer && forall j :: |answer| <= j < |answer'| ==> answer'[j] in NoiseChars
    ensures HomoglyphFree(answer) ==> HomoglyphFree(answer')
    ensures ' ' !in answer ==> ' ' !in answer'
    ensures forall i :: 0 <= i < |aliases| ==> VowelFree(aliases[i]) ==> VowelFree(aliases'[i])
  {
    answer', aliases' := answer, aliases;
    if d.addNoise {
      if d.noiseOnAnswer {
        answer' := answer + [NoiseChars[d.answerNoisePick]];
      } else {
        aliases' := SuffixEach(aliases, d.aliasNoisePicks);
      }
    }
  }

  /**
   * What the question blocks leave behind, given whether the "answer_in_context"
   * block (`hiding`) and the "normalize_question" block (`normalizing`) ran on
   * the question `SampleQuestion(first)`, `first` being the drawn answer.
   */
  ghost predicate QuestionEffects(d: Draws, hiding: bool, normalizing: bool, question: string)
    requires Feasible(d)
  {
    var first := RandomWord(1, 8, d.answerPicks);
    && (!hiding && !normalizing ==> question == SampleQuestion(first))
    && (hiding && d.contextMode == Remove && !normalizing ==> IsRandomString(question, 30, 120, true))
    && (hiding && d.contextMode == Obfuscate && !normalizing ==>
          question == ObfuscatedQuestion(ObfuscateAnswer(first, d.obfuscationPicks)))
    && (hiding && d.contextMode == Split && !normalizing ==> question == BrokenQuestion(SpaceJoin(first)))
    && (normalizing && d.normalizeMode == LongNoSpace ==> 200 <= |question| <= 800 && ' ' !in question)
    && (normalizing && d.normalizeMode == UnicodeNoise ==>
          150 <= |question| <= 400 && forall c :: c in question ==> c in GarbageChars)
    && (normalizing && d.normalizeMode == ControlChars ==> 80 <= |question| && ' ' !in question)
  }

  /**
   * What the answer and alias blocks leave behind, given whether the
   * "score_candidate" block (`scoring`) and the "validate_consistency" block
   * (`checking`) ran on the answer `first`, before or after (`noised`) the
   * closing noise, which adds at most one character to the answer.
   */
  ghost predicate AnswerEffects(d: Draws, scoring: bool, checking: bool, noised: bool, first: string,
                                answer: string, aliases: seq<string>) {
    var slack := if noised then 1 else 0;
    && |answer| >= 1 && NonEmptyStrings(aliases) && |aliases| <= 4
    && (aliases == [] <==> checking && d.consistencyMode == AliasesEmpty)
    && (checking && d.consistencyMode == AliasesNoVowel ==> forall i :: 0 <= i < |aliases| ==> VowelFree(aliases[i]))
    // as written, the renamed answer is still an alias only when its prefix is one too
    && (checking && d.consistencyMode == MissingInAliases && !(noised && d.addNoise) && answer in aliases ==>
          |answer| >= 2 && answer[..|answer| - 1] in aliases)
    && (!scoring ==> |first| <= |answer| <= |first| + 1 + slack && answer[..|first|] == first)
    && (scoring && d.scoreMode == NoMatch ==> 8 <= |answer| <= 13 + slack && ' ' !in answer)
    && (scoring && d.scoreMode == Homoglyphs ==> HomoglyphFree(answer))
    && (scoring && d.scoreMode == ShortCandidate ==> |answer| <= 2 + slack && 'a' <= answer[0] <= 'z')
  }

  /**
   * `generate_item()`: start from a readable question, a random answer and
   * one to three random aliases (plus, sometimes, the answer itself), then
   * rewrite them for each sampled error type, and sometimes append a noise
   * character. The record has no "id" and no "_error_flags".
   */
  method GenerateItem(d: Draws) returns (item: Item)
    requires Feasible(d)
    ensures Unlabelled(item)
    ensures QuestionEffects(d, Injects(d, "answer_in_context"), Injects(d, "normalize_question"), item.question)
    ensures AnswerEffects(d, Injects(d, "score_candidate"), Injects(d, "validate_consistency"), true,
      RandomWord(1, 8, d.answerPicks), item.answer, item.aliases)
    ensures Injects(d, "validate_consistency") && d.consistencyMode == MissingInAliases && !d.addNoise ==>
      (!Functions.ValidateConsistency(item) ==> |item.answer| >= 2 && item.answer[..|item.answer| - 1] in item.aliases)
  {
    var errorTypes := ErrorTypes(d.errorPicks);
    var question, answer, aliases := StartItem(d);
    question := QuestionSteps(d, ListContains(errorTypes, "answer_in_context"),
      ListContains(errorTypes, "normalize_question"), question, answer);
    answer, aliases := AnswerSteps(d, ListContains(errorTypes, "score_candidate"),
      ListContains(errorTypes, "validate_consistency"), answer, aliases);
    item := Item(question, answer, aliases, None, None);
    if ListContains(errorTypes, "validate_consistency") && d.consistencyMode == MissingInAliases && !d.addNoise {
      RenamedItemConsistency(d, ListContains(errorTypes, "score_candidate"), RandomWord(1, 8, d.answerPicks), item);
    }
  }

  /**
   * After the "missing_in_aliases" rewrite and no closing noise, the item
   * fails `validate_consistency` only when the answer without its last letter
   * is an alias as well.
   */
  lemma RenamedItemConsistency(d: Draws, scoring: bool, first: string, item: Item)
    requires AnswerEffects(d, scoring, true, true, first, item.answer, item.aliases)
    requires d.consistencyMode == MissingInAliases && !d.addNoise
    ensures !Functions.ValidateConsistency(item) ==> |item.answer| >= 2 && item.answer[..|item.answer| - 1] in item.aliases
  {
  }

  /** The blocks of `generate_item` that rewrite the question, in order. */
  method QuestionSteps(d: Draws, hiding: bool, normalizing: bool, question: string, answer: string) returns (question': string)
    requires Feasible(d)
    requires answer == RandomWord(1, 8, d.answerPicks) && question == SampleQuestion(answer)
    ensures QuestionEffects(d, hiding, normalizing, question')
  {
    question' := question;
    if hiding {
      question' := BreakContext(d, answer);
    }
    if normalizing {
      question' := BreakNormalization(d);
    }
  }

  /** The blocks of `generate_item` that rewrite the answer and the aliases, in order, then the noise. */
  method AnswerSteps(d: Draws, scoring: bool, checking: bool, answer: string, aliases: seq<string>)
      returns (answer': string, aliases': seq<string>)
    requires Feasible(d)
    requires |answer| >= 1 && 1 <= |aliases| <= 4 && d.homoglyphPick < |aliases| && NonEmptyStrings(aliases)
    ensures AnswerEffects(d, scoring, checking, true, answer, answer', aliases')
  {
    var renamed, renamedAliases := ScoreAndCheck(d, scoring, checking, answer, aliases);
    answer', aliases' := AddNoise(d, renamed, renamedAliases);
    if !scoring {
      PrefixOfPrefix(answer', renamed, answer);
    } else if d.scoreMode == ShortCandidate {
      assert answer'[0] == renamed[0] by {
        assert answer'[..|renamed|][0] == answer'[0];
      }
    }
  }

  /** The "score_candidate" and "validate_consistency" blocks of `generate_item`, in order. */
  method ScoreAndCheck(d: Draws, scoring: bool, checking: bool, answer: string, aliases: seq<string>)
      returns (answer': string, aliases': seq<string>)
    requires Feasible(d)
    requires |answer| >= 1 && 1 <= |aliases| <= 4 && d.homoglyphPick < |aliases| && NonEmptyStrings(aliases)
    ensures AnswerEffects(d, scoring, checking, false, answer, answer', aliases')
  {
    var scored, scoredAliases := answer, aliases;
    if scoring {
      scored, scoredAliases := BreakScore(d, answer, aliases);
    }
    answer', aliases' := scored, scoredAliases;
    if checking {
      answer', aliases' := BreakConsistency(d, scored, scoredAliases);
    }
    if !scoring {
      PrefixOfPrefix(answer', scored, answer);
    } else if d.scoreMode == ShortCandidate {
      assert answer'[0] == scored[0] by {
        assert answer'[..|scored|][0] == answer'[0];
      }
    }
  }

  /** A prefix of a prefix is a prefix. */
  lemma PrefixOfPrefix(a: string, b: string, c: string)
    requires |c| <= |b| <= |a| && a[..|b|] == b && b[..|c|] == c
    ensures a[..|c|] == c
  {
    assert a[..|b|][..|c|] == a[..|c|];
  }

  /** An item as `generate_item` returns it: a non-empty answer, and neither "id" nor "_error_flags". */
  predicate Unlabelled(item: Item) {
    item.id.None? && item.errorFlags.None? && |item.answer| >= 1
  }

  /** Appending an unlabelled item to unlabelled items leaves every item unlabelled. */
  lemma UnlabelledAppend(data: seq<Item>, item: Item)
    requires forall j :: 0 <= j < |data| ==> Unlabelled(data[j])
    requires Unlabelled(item)
    ensures forall j :: 0 <= j < |data| + 1 ==> Unlabelled((data + [item])[j])
  {
  }

  /** The number of items the script writes to data/incorrect.json. */
  const DatasetSize: nat := 3000

  /** `[generate_item() for _ in range(3000)]`, one set of draws per item. */
  method GenerateDataset(draws: seq<Draws>) returns (data: seq<Item>)
    requires |draws| == DatasetSize
    requires forall k :: 0 <= k < |draws| ==> Feasible(draws[k])
    ensures |data| == DatasetSize
    ensures forall k :: 0 <= k < |data| ==> Unlabelled(data[k])
  {
    data := [];
    for k := 0 to |draws|
      invariant |data| == k
      invariant forall j :: 0 <= j < k ==> Unlabelled(data[j])
    {
      var item := GenerateItem(draws[k]);
      UnlabelledAppend(data, item);
      data := data + [item];
    }
  }
}
