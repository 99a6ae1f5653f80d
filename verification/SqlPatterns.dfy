/** The regular expression of `_split_sql_statements` in `backend/server/runtime_postgres/database.py`:
    how it is matched, and the language it stands for. */
module SqlPatterns {
  import opened PyStrings
  import opened Wrappers

  // ------------------------------------------------------------ the regular expression

  /** The patterns needed here. Whitespace is matched as far as it goes, nothing that must come
      after it begins with whitespace, and the alternatives exclude each other, so matching never
      has to go back. */
  datatype Pattern =
    | Word(letters: string)
    | Spaces(atLeast: nat)
    | Then(first: Pattern, second: Pattern)
    | Maybe(pattern: Pattern)
    | Or(left: Pattern, right: Pattern)

  /** Matching a letter of the pattern, which is in lower case, without regard to case. */
  predicate SameLetter(c: char, letter: char) {
    c == letter || c as int == letter as int - 32
    || (letter == 'i' && (c as int == 0x130 || c as int == 0x131))
    || (letter == 's' && c as int == 0x17f)
  }

  function WordEnd(word: string, text: string, i: nat): (end: Option<nat>)
    requires i <= |text|
    ensures end.Some? ==> i <= end.value <= |text|
    decreases |text| - i
  {
    if word == "" then Some(i)
    else if i == |text| || !SameLetter(text[i], word[0]) then None
    else WordEnd(word[1..], text, i + 1)
  }

  function SpacesEnd(text: string, i: nat): (end: nat)
    requires i <= |text|
    ensures i <= end <= |text|
    decreases |text| - i
  {
    if i < |text| && IsSpace(text[i]) then SpacesEnd(text, i + 1) else i
  }

  /** Where a match that begins at `i` ends. */
  function MatchEnd(p: Pattern, text: string, i: nat): (end: Option<nat>)
    requires i <= |text|
    ensures end.Some? ==> i <= end.value <= |text|
    decreases p
  {
    match p
    case Word(letters) => WordEnd(letters, text, i)
    case Spaces(atLeast) =>
      var end := SpacesEnd(text, i);
      if end - i < atLeast then None else Some(end)
    case Then(first, second) =>
      var middle := MatchEnd(first, text, i);
      if middle.None? then None else MatchEnd(second, text, middle.value)
    case Maybe(pattern) =>
      var end := MatchEnd(pattern, text, i);
      if end.None? then Some(i) else end
    case Or(left, right) =>
      var end := MatchEnd(left, text, i);
      if end.None? then MatchEnd(right, text, i) else end
  }

  /** A word and `\s+`. */
  function Spaced(letters: string): Pattern { Then(Word(letters), Spaces(1)) }

  /** `create\s+index\s+concurrently\s*` */
  const CREATE_INDEX := Then(Spaced("create"), Then(Spaced("index"), Then(Word("concurrently"), Spaces(0))))

  /** `drop\s+index\s+(?:concurrently\s+)?(?:if\s+exists\s+)?\s*` */
  const DROP_INDEX :=
    Then(Spaced("drop"),
         Then(Spaced("index"),
              Then(Maybe(Spaced("concurrently")), Then(Maybe(Then(Spaced("if"), Spaced("exists"))), Spaces(0)))))

  const INDEX_STATEMENT := Or(CREATE_INDEX, DROP_INDEX)

  // ------------------------------------------------------------ the language of a pattern

  predicate SpacesIn(text: string, i: nat, e: nat)
    requires i <= e <= |text|
  {
    forall k | i <= k < e :: IsSpace(text[k])
  }

  predicate SpelledAt(letters: string, text: string, i: nat)
    requires i + |letters| <= |text|
  {
    forall k | 0 <= k < |letters| :: SameLetter(text[i + k], letters[k])
  }

  /** The pattern matches the text from `i` to `e`. */
  ghost predicate Matches(p: Pattern, text: string, i: nat, e: nat) {
    i <= e <= |text|
    && match p
       case Word(letters) => e == i + |letters| && SpelledAt(letters, text, i)
       case Spaces(atLeast) => i + atLeast <= e && SpacesIn(text, i, e)
       case Then(first, second) => exists m: nat :: Matches(first, text, i, m) && Matches(second, text, m, e)
       case Maybe(pattern) => e == i || Matches(pattern, text, i, e)
       case Or(left, right) => Matches(left, text, i, e) || Matches(right, text, i, e)
  }

  /** The longest match from `i`, if there is one. */
  ghost predicate Longest(p: Pattern, text: string, i: nat, end: Option<nat>) {
    match end
    case None => forall e: nat :: !Matches(p, text, i, e)
    case Some(last) => Matches(p, text, i, last) && forall e: nat | Matches(p, text, i, e) :: e <= last
  }

  /** Matching without going back finds the longest match from every position. */
  ghost predicate Greedy(p: Pattern, text: string) {
    forall i: nat | i <= |text| :: Longest(p, text, i, MatchEnd(p, text, i))
  }

  /** Leaving out whitespace in front costs no match. */
  ghost predicate SkipsSpaces(p: Pattern, text: string) {
    forall i: nat, k: nat, e: nat | i <= k <= |text| && SpacesIn(text, i, k) && Matches(p, text, i, e) ::
      ReachesFrom(p, text, k, e)
  }

  ghost predicate ReachesFrom(p: Pattern, text: string, k: nat, e: nat) {
    exists e': nat :: e <= e' && Matches(p, text, k, e')
  }

  /** Two matches from one position differ by whitespace. */
  ghost predicate EndsInSpaces(p: Pattern, text: string) {
    forall i: nat, m: nat, n: nat | m <= n && Matches(p, text, i, m) && Matches(p, text, i, n) :: SpacesIn(text, m, n)
  }

  /** A match begins with this letter. */
  ghost predicate BeginsWith(p: Pattern, text: string, letter: char) {
    forall i: nat, e: nat | Matches(p, text, i, e) :: i < e && SameLetter(text[i], letter)
  }

  // ------------------------------------------------------------ words and whitespace

  lemma {:induction false} WordEndExact(word: string, text: string, i: nat)
    requires i <= |text|
    ensures WordEnd(word, text, i).Some? <==> i + |word| <= |text| && SpelledAt(word, text, i)
    ensures WordEnd(word, text, i).Some? ==> WordEnd(word, text, i).value == i + |word|
    decreases |word|
  {
    if word != "" && i < |text| {
      var tail := word[1..];
      WordEndExact(tail, text, i + 1);
      if i + |word| <= |text| {
        assert SpelledAt(word, text, i) <==> SameLetter(text[i], word[0]) && SpelledAt(tail, text, i + 1) by {
          assert forall k | 0 <= k < |tail| :: tail[k] == word[k + 1] && text[i + 1 + k] == text[i + (k + 1)];
          assert forall k | 1 <= k < |word| :: word[k] == tail[k - 1] && text[i + k] == text[i + 1 + (k - 1)];
        }
      }
    }
  }

  lemma WordGreedy(letters: string, text: string)
    ensures Greedy(Word(letters), text)
  {
    forall i: nat | i <= |text|
      ensures Longest(Word(letters), text, i, MatchEnd(Word(letters), text, i))
    {
      WordEndExact(letters, text, i);
    }
  }

  lemma {:induction false} SpacesEndExact(text: string, i: nat)
    requires i <= |text|
    ensures SpacesIn(text, i, SpacesEnd(text, i))
    ensures SpacesEnd(text, i) < |text| ==> !IsSpace(text[SpacesEnd(text, i)])
    decreases |text| - i
  {
    if i < |text| && IsSpace(text[i]) { SpacesEndExact(text, i + 1); }
  }

  lemma SpacesStop(text: string, i: nat, e: nat)
    requires i <= e <= |text| && SpacesIn(text, i, e)
    ensures e <= SpacesEnd(text, i)
  {
    SpacesEndExact(text, i);
  }

  lemma SpacesGreedy(atLeast: nat, text: string)
    ensures Greedy(Spaces(atLeast), text)
  {
    forall i: nat | i <= |text|
      ensures Longest(Spaces(atLeast), text, i, MatchEnd(Spaces(atLeast), text, i))
    {
      SpacesEndExact(text, i);
      forall e: nat | Matches(Spaces(atLeast), text, i, e)
        ensures e <= SpacesEnd(text, i)
      {
        SpacesStop(text, i, e);
      }
    }
  }

  /** The first letters of the words in the patterns. */
  predicate Letter(c: char) { 'a' <= c <= 'z' }

  lemma LettersAreNotSpaces(c: char, letter: char)
    requires Letter(letter) && SameLetter(c, letter)
    ensures !IsSpace(c)
  {
  }

  lemma BeginningSkipsSpaces(p: Pattern, text: string, letter: char)
    requires BeginsWith(p, text, letter) && Letter(letter)
    ensures SkipsSpaces(p, text)
  {
    forall i: nat, k: nat, e: nat | i <= k <= |text| && SpacesIn(text, i, k) && Matches(p, text, i, e)
      ensures ReachesFrom(p, text, k, e)
    {
      LettersAreNotSpaces(text[i], letter);
      assert i == k;
    }
  }

  // ------------------------------------------------------------ sequences

  lemma ThenMatches(first: Pattern, second: Pattern, text: string, i: nat, m: nat, e: nat)
    requires Matches(first, text, i, m) && Matches(second, text, m, e)
    ensures Matches(Then(first, second), text, i, e)
  {
  }

  lemma Middle(first: Pattern, second: Pattern, text: string, i: nat, e: nat) returns (m: nat)
    requires Matches(Then(first, second), text, i, e)
    ensures Matches(first, text, i, m) && Matches(second, text, m, e)
  {
    m :| Matches(first, text, i, m) && Matches(second, text, m, e);
  }

  /** A first part whose matches differ by whitespace only, before one that skips whitespace. */
  lemma ThenGreedyAt(first: Pattern, second: Pattern, text: string, i: nat)
    requires Greedy(first, text) && Greedy(second, text) && EndsInSpaces(first, text) && SkipsSpaces(second, text)
    requires i <= |text|
    ensures Longest(Then(first, second), text, i, MatchEnd(Then(first, second), text, i))
  {
    var p := Then(first, second);
    var middle, end := MatchEnd(first, text, i), MatchEnd(p, text, i);
    assert Longest(first, text, i, middle);
    if middle.Some? {
      assert Longest(second, text, middle.value, MatchEnd(second, text, middle.value));
      if end.Some? { ThenMatches(first, second, text, i, middle.value, end.value); }
      forall e: nat | Matches(p, text, i, e)
        ensures end.Some? && e <= end.value
      {
        var m := Middle(first, second, text, i, e);
        assert SpacesIn(text, m, middle.value);
        assert ReachesFrom(second, text, middle.value, e);
      }
    }
  }

  lemma ThenGreedy(first: Pattern, second: Pattern, text: string)
    requires Greedy(first, text) && Greedy(second, text) && EndsInSpaces(first, text) && SkipsSpaces(second, text)
    ensures Greedy(Then(first, second), text)
  {
    forall i: nat | i <= |text|
      ensures Longest(Then(first, second), text, i, MatchEnd(Then(first, second), text, i))
    {
      ThenGreedyAt(first, second, text, i);
    }
  }

  lemma ThenBegins(first: Pattern, second: Pattern, text: string, letter: char)
    requires BeginsWith(first, text, letter)
    ensures BeginsWith(Then(first, second), text, letter)
  {
    forall i: nat, e: nat | Matches(Then(first, second), text, i, e)
      ensures i < e && SameLetter(text[i], letter)
    {
      var m := Middle(first, second, text, i, e);
    }
  }

  lemma WordBegins(letters: string, text: string)
    requires letters != ""
    ensures BeginsWith(Word(letters), text, letters[0])
    ensures EndsInSpaces(Word(letters), text)
  {
  }

  /** What ends in spaces behind one fixed match, ends in spaces. */
  lemma FixedThenEnds(first: Pattern, second: Pattern, text: string)
    requires EndsInSpaces(second, text)
    requires forall i: nat, m: nat, n: nat | Matches(first, text, i, m) && Matches(first, text, i, n) :: m == n
    ensures EndsInSpaces(Then(first, second), text)
  {
    var p := Then(first, second);
    forall i: nat, m: nat, n: nat | m <= n && Matches(p, text, i, m) && Matches(p, text, i, n)
      ensures SpacesIn(text, m, n)
    {
      var j := Middle(first, second, text, i, m);
      var k := Middle(first, second, text, i, n);
      assert j == k;
    }
  }

  /** A word with whitespace after it, as a first part. */
  ghost predicate Opens(p: Pattern, text: string, letter: char) {
    Letter(letter) && Greedy(p, text) && EndsInSpaces(p, text) && BeginsWith(p, text, letter)
  }

  lemma SpacedOpens(letters: string, text: string)
    requires letters != "" && Letter(letters[0])
    ensures Opens(Spaced(letters), text, letters[0])
  {
    WordGreedy(letters, text);
    WordBegins(letters, text);
    SpacesGreedy(1, text);
    WordThenGreedy(letters, Spaces(1), text);
    ThenBegins(Word(letters), Spaces(1), text, letters[0]);
    FixedThenEnds(Word(letters), Spaces(1), text);
  }

  /** After a word nothing depends on whitespace. */
  lemma WordThenGreedy(letters: string, second: Pattern, text: string)
    requires Greedy(second, text)
    ensures Greedy(Then(Word(letters), second), text)
  {
    var p := Then(Word(letters), second);
    forall i: nat | i <= |text|
      ensures Longest(p, text, i, MatchEnd(p, text, i))
    {
      WordEndExact(letters, text, i);
      var middle, end := MatchEnd(Word(letters), text, i), MatchEnd(p, text, i);
      if middle.Some? {
        assert Longest(second, text, middle.value, MatchEnd(second, text, middle.value));
        if end.Some? { ThenMatches(Word(letters), second, text, i, middle.value, end.value); }
      }
      forall e: nat | Matches(p, text, i, e)
        ensures end.Some? && e <= end.value
      {
        var m := Middle(Word(letters), second, text, i, e);
        assert middle == Some(m);
      }
    }
  }

  /** An opening word before something that skips whitespace. */
  lemma OpeningThen(first: Pattern, second: Pattern, text: string, letter: char)
    requires Opens(first, text, letter) && Greedy(second, text) && SkipsSpaces(second, text)
    ensures Greedy(Then(first, second), text) && BeginsWith(Then(first, second), text, letter)
    ensures SkipsSpaces(Then(first, second), text)
  {
    ThenGreedy(first, second, text);
    ThenBegins(first, second, text, letter);
    BeginningSkipsSpaces(Then(first, second), text, letter);
  }

  /** Two opening words in a row open, too. */
  lemma TwoOpen(first: Pattern, second: Pattern, text: string, letter: char, letter': char)
    requires Opens(first, text, letter) && Opens(second, text, letter')
    ensures Opens(Then(first, second), text, letter)
  {
    var p := Then(first, second);
    BeginningSkipsSpaces(second, text, letter');
    OpeningThen(first, second, text, letter);
    forall i: nat, m: nat, n: nat | m <= n && Matches(p, text, i, m) && Matches(p, text, i, n)
      ensures SpacesIn(text, m, n)
    {
      var j := Middle(first, second, text, i, m);
      var k := Middle(first, second, text, i, n);
      LettersAreNotSpaces(text[j], letter');
      LettersAreNotSpaces(text[k], letter');
      assert SpacesIn(text, if j <= k then j else k, if j <= k then k else j);
      assert j == k;
    }
  }

  // ------------------------------------------------------------ optional words

  /** From everywhere there is a match, if only an empty one. */
  ghost predicate Nullable(p: Pattern, text: string) {
    forall i: nat | i <= |text| :: Matches(p, text, i, i)
  }

  /** Where this letter is, there is only an empty match. */
  ghost predicate EmptyAt(p: Pattern, text: string, letter: char) {
    forall i: nat, e: nat | Matches(p, text, i, e) && i < |text| && SameLetter(text[i], letter) :: e == i
  }

  /** What may follow the word `index` or another optional word. */
  ghost predicate Follows(p: Pattern, text: string) { Greedy(p, text) && SkipsSpaces(p, text) && Nullable(p, text) }

  lemma OptionalGreedyAt(x: Pattern, rest: Pattern, text: string, letter: char, i: nat)
    requires Opens(x, text, letter) && Follows(rest, text) && EmptyAt(rest, text, letter) && i <= |text|
    ensures Longest(Then(Maybe(x), rest), text, i, MatchEnd(Then(Maybe(x), rest), text, i))
  {
    var p := Then(Maybe(x), rest);
    var word := MatchEnd(x, text, i);
    var k := if word.Some? then word.value else i;
    assert Longest(x, text, i, word) && MatchEnd(Maybe(x), text, i) == Some(k);
    var end := MatchEnd(rest, text, k);
    assert Longest(rest, text, k, end) && Matches(rest, text, k, k);
    ThenMatches(Maybe(x), rest, text, i, k, end.value);
    forall e: nat | Matches(p, text, i, e)
      ensures e <= end.value
    {
      var m := Middle(Maybe(x), rest, text, i, e);
      if m != i {
        assert SpacesIn(text, m, k);
        assert ReachesFrom(rest, text, k, e);
      } else if word.Some? {
        assert e == i;
      }
    }
  }

  lemma Optional(x: Pattern, rest: Pattern, text: string, letter: char)
    requires Opens(x, text, letter) && Follows(rest, text) && EmptyAt(rest, text, letter)
    ensures Follows(Then(Maybe(x), rest), text)
  {
    var p := Then(Maybe(x), rest);
    forall i: nat | i <= |text|
      ensures Longest(p, text, i, MatchEnd(p, text, i)) && Matches(p, text, i, i)
    {
      OptionalGreedyAt(x, rest, text, letter, i);
      assert Matches(rest, text, i, i);
      ThenMatches(Maybe(x), rest, text, i, i, i);
    }
    forall i: nat, k: nat, e: nat | i <= k <= |text| && SpacesIn(text, i, k) && Matches(p, text, i, e)
      ensures ReachesFrom(p, text, k, e)
    {
      if i < k {
        var m := Middle(Maybe(x), rest, text, i, e);
        if m != i { LettersAreNotSpaces(text[i], letter); }
        assert ReachesFrom(rest, text, k, e);
        var e': nat :| e <= e' && Matches(rest, text, k, e');
        ThenMatches(Maybe(x), rest, text, k, k, e');
      }
    }
  }

  lemma SpacesFollow(text: string)
    ensures Follows(Spaces(0), text)
    ensures forall letter | Letter(letter) :: EmptyAt(Spaces(0), text, letter)
  {
    SpacesGreedy(0, text);
    forall i: nat, k: nat, e: nat | i <= k <= |text| && SpacesIn(text, i, k) && Matches(Spaces(0), text, i, e)
      ensures ReachesFrom(Spaces(0), text, k, e)
    {
      assert Matches(Spaces(0), text, k, if e <= k then k else e);
    }
    forall letter, i: nat, e: nat
      | Letter(letter) && Matches(Spaces(0), text, i, e) && i < |text| && SameLetter(text[i], letter)
      ensures e == i
    {
      LettersAreNotSpaces(text[i], letter);
    }
  }

  lemma OptionalEmptyAt(x: Pattern, rest: Pattern, text: string, letter: char, other: char)
    requires BeginsWith(x, text, letter) && EmptyAt(rest, text, other)
    requires forall c :: !(SameLetter(c, letter) && SameLetter(c, other))
    ensures EmptyAt(Then(Maybe(x), rest), text, other)
  {
    var p := Then(Maybe(x), rest);
    forall i: nat, e: nat | Matches(p, text, i, e) && i < |text| && SameLetter(text[i], other)
      ensures e == i
    {
      var m := Middle(Maybe(x), rest, text, i, e);
      assert m == i;
    }
  }

  // ------------------------------------------------------------ the expression

  const IF_EXISTS := Then(Spaced("if"), Spaced("exists"))
  const DROP_TAIL := Then(Maybe(Spaced("concurrently")), Then(Maybe(IF_EXISTS), Spaces(0)))

  lemma CreateIsGreedy(text: string)
    ensures Greedy(CREATE_INDEX, text) && BeginsWith(CREATE_INDEX, text, 'c')
  {
    var name := Then(Word("concurrently"), Spaces(0));
    SpacesGreedy(0, text);
    WordThenGreedy("concurrently", Spaces(0), text);
    WordBegins("concurrently", text);
    ThenBegins(Word("concurrently"), Spaces(0), text, 'c');
    BeginningSkipsSpaces(name, text, 'c');
    SpacedOpens("index", text);
    OpeningThen(Spaced("index"), name, text, 'i');
    SpacedOpens("create", text);
    OpeningThen(Spaced("create"), Then(Spaced("index"), name), text, 'c');
  }

  lemma DropTailFollows(text: string)
    ensures Follows(DROP_TAIL, text)
  {
    SpacedOpens("if", text);
    SpacedOpens("exists", text);
    SpacedOpens("concurrently", text);
    TwoOpen(Spaced("if"), Spaced("exists"), text, 'i', 'e');
    SpacesFollow(text);
    Optional(IF_EXISTS, Spaces(0), text, 'i');
    OptionalEmptyAt(IF_EXISTS, Spaces(0), text, 'i', 'c');
    Optional(Spaced("concurrently"), Then(Maybe(IF_EXISTS), Spaces(0)), text, 'c');
  }

  lemma DropIsGreedy(text: string)
    ensures Greedy(DROP_INDEX, text) && BeginsWith(DROP_INDEX, text, 'd')
  {
    DropTailFollows(text);
    SpacedOpens("index", text);
    OpeningThen(Spaced("index"), DROP_TAIL, text, 'i');
    SpacedOpens("drop", text);
    OpeningThen(Spaced("drop"), Then(Spaced("index"), DROP_TAIL), text, 'd');
  }

  /** At every position of every text, matching the expression without going back finds the longest
      text of its language there, if there is one. */
  lemma IndexStatementIsGreedy(text: string)
    ensures Greedy(INDEX_STATEMENT, text)
    ensures forall i: nat, e: nat | Matches(INDEX_STATEMENT, text, i, e) :: i < e
  {
    CreateIsGreedy(text);
    DropIsGreedy(text);
    forall i: nat | i <= |text|
      ensures Longest(INDEX_STATEMENT, text, i, MatchEnd(INDEX_STATEMENT, text, i))
    {
      assert Longest(CREATE_INDEX, text, i, MatchEnd(CREATE_INDEX, text, i));
      assert Longest(DROP_INDEX, text, i, MatchEnd(DROP_INDEX, text, i));
    }
  }

  /** Whitespace behind a match belongs to it. */
  lemma IndexStatementEndsClear(text: string, i: nat)
    requires i <= |text| && MatchEnd(INDEX_STATEMENT, text, i).Some?
    ensures var end := MatchEnd(INDEX_STATEMENT, text, i).value;
            end < |text| ==> !IsSpace(text[end])
  {
    EndsBehindSpaces(CREATE_INDEX, text, i);
    EndsBehindSpaces(DROP_INDEX, text, i);
  }

  /** The last thing matched is any amount of whitespace. */
  predicate TakesSpaces(p: Pattern) {
    p == Spaces(0) || (p.Then? && TakesSpaces(p.second))
  }

  lemma {:induction false} EndsBehindSpaces(p: Pattern, text: string, i: nat)
    requires TakesSpaces(p) && i <= |text|
    ensures var end := MatchEnd(p, text, i);
            end.Some? && end.value < |text| ==> !IsSpace(text[end.value])
  {
    if p.Then? {
      var middle := MatchEnd(p.first, text, i);
      if middle.Some? { EndsBehindSpaces(p.second, text, middle.value); }
    } else {
      SpacesEndExact(text, i);
    }
  }
}
