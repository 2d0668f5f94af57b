/** The filter on reply patterns, and why it keeps pattern matching bounded.

    The filter looks at characters only.  To say what it achieves, regular expressions are given their own syntax
    with all the constructs the filter means to exclude; Print is the text a pattern is written as.  One text can be
    the print of several expressions, and the results hold for every one of them, the library's reading included. */
module BoundedRegex {
  import opened Wrappers

  const MAX_PATTERN_LENGTH := 200

  // ---------------------------------------------------------------- the filter

  predicate IsBracket(c: char) {
    c == '(' || c == ')' || c == '{' || c == '}'
  }

  /** The unsafe construct searched for starts at i: a numbered or named back-reference, or a group or a count. */
  predicate UnsafeAt(s: string, i: nat)
    requires i < |s|
  {
    || IsBracket(s[i])
    || (s[i] == '\\' && i + 1 < |s| && '1' <= s[i + 1] <= '9')
    || (s[i] == '\\' && i + 2 < |s| && s[i + 1] == 'k' && s[i + 2] == '<')
  }

  predicate QuantifierAt(s: string, i: nat)
    requires i < |s|
  {
    s[i] == '*' || s[i] == '+' || (s[i] == '?' && (i == 0 || s[i - 1] != ']'))
  }

  predicate Accepted(s: string) {
    |s| <= MAX_PATTERN_LENGTH && forall i :: 0 <= i < |s| ==> !UnsafeAt(s, i) && !QuantifierAt(s, i)
  }

  predicate StandsAt(s: string, part: string, i: nat) {
    i + |part| <= |s| && s[i..i + |part|] == part
  }

  ghost predicate Contains(s: string, part: string) {
    exists i: nat :: StandsAt(s, part, i)
  }

  /** Every question mark closes a character class. */
  predicate QuestionsFollowClasses(s: string) {
    forall i :: 0 <= i < |s| && s[i] == '?' ==> i > 0 && s[i - 1] == ']'
  }

  lemma {:induction false} ReferenceAt(s: string, i: nat)
    requires i < |s|
    ensures UnsafeAt(s, i) <==>
              || s[i] in "(){}"
              || StandsAt(s, "\\k<", i)
              || exists d :: '1' <= d <= '9' && StandsAt(s, ['\\', d], i)
  {
    assert StandsAt(s, "\\k<", i) <==> i + 3 <= |s| && s[i..i + 3] == ['\\', 'k', '<'];
    forall d: char ensures StandsAt(s, ['\\', d], i) <==> i + 2 <= |s| && s[i] == '\\' && s[i + 1] == d {
      assert i + 2 <= |s| ==> s[i..i + 2] == [s[i], s[i + 1]];
    }
    assert i + 3 <= |s| ==> s[i..i + 3] == [s[i], s[i + 1], s[i + 2]];
    if UnsafeAt(s, i) && i + 1 < |s| {
      assert StandsAt(s, ['\\', s[i + 1]], i) <==> s[i] == '\\';
    }
  }

  /** What a pattern may contain: no brackets, no star or plus, no numbered or named back-reference, and no question
      mark but after a character class. */
  ghost predicate Plain(s: string) {
    && |s| <= 200
    && (forall c :: c in "(){}*+" ==> c !in s)
    && (forall d :: '1' <= d <= '9' ==> !Contains(s, ['\\', d]))
    && !Contains(s, "\\k<")
    && QuestionsFollowClasses(s)
  }

  lemma {:induction false} AcceptedArePlain(s: string)
    requires Accepted(s)
    ensures Plain(s)
  {
    forall i | 0 <= i < |s| ensures s[i] !in "(){}*+" {
      assert !UnsafeAt(s, i) && !QuantifierAt(s, i);
    }
    forall i: nat, d | '1' <= d <= '9' ensures !StandsAt(s, ['\\', d], i) {
      if i < |s| { ReferenceAt(s, i); }
    }
    forall i: nat ensures !StandsAt(s, "\\k<", i) {
      if i < |s| { ReferenceAt(s, i); }
    }
    forall i | 0 <= i < |s| && s[i] == '?' ensures i > 0 && s[i - 1] == ']' {
      assert !QuantifierAt(s, i);
    }
  }

  /** The filter accepts exactly the plain patterns. */
  lemma {:induction false} AcceptedExactly(s: string)
    ensures Accepted(s) <==> Plain(s)
  {
    if Accepted(s) { AcceptedArePlain(s); }
    if Plain(s) {
      forall i | 0 <= i < |s| ensures !UnsafeAt(s, i) && !QuantifierAt(s, i) {
        ReferenceAt(s, i);
        assert s[i] in s;
      }
    }
  }

  method UsesUnsupportedQuantifier(s: string) returns (found: bool)
    ensures found <==> exists i :: 0 <= i < |s| && QuantifierAt(s, i)
  {
    if '*' in s || '+' in s {
      var i :| 0 <= i < |s| && (s[i] == '*' || s[i] == '+');
      assert QuantifierAt(s, i);
      return true;
    }
    for index := 0 to |s|
      invariant forall i :: 0 <= i < index ==> !QuantifierAt(s, i)
    {
      if s[index] == '?' && (index == 0 || s[index - 1] != ']') {
        assert QuantifierAt(s, index);
        return true;
      }
    }
    return false;
  }

  method SearchUnsafe(s: string) returns (found: bool)
    ensures found <==> exists i :: 0 <= i < |s| && UnsafeAt(s, i)
  {
    for index := 0 to |s|
      invariant forall i :: 0 <= i < index ==> !UnsafeAt(s, i)
    {
      if UnsafeAt(s, index) {
        return true;
      }
    }
    return false;
  }

  datatype Verdict = Valid | TooLong | Unsafe | Invalid

  /** The validator; whether the expression compiles at all is the library's word. */
  method ValidateBoundedRegex(s: string, compiles: bool) returns (verdict: Verdict)
    ensures verdict.Valid? <==> Accepted(s) && compiles
    ensures verdict.TooLong? <==> |s| > MAX_PATTERN_LENGTH
    ensures verdict.Invalid? <==> Accepted(s) && !compiles
  {
    if |s| > MAX_PATTERN_LENGTH {
      return TooLong;
    }
    var unsafe := SearchUnsafe(s);
    var quantified := UsesUnsupportedQuantifier(s);
    if unsafe || quantified {
      return Unsafe;
    }
    return if compiles then Valid else Invalid;
  }

  // ---------------------------------------------------------------- regular expressions

  datatype Quantifier = Star | Plus | Optional | Counted(min: nat, max: Option<nat>, text: string)

  /** Regular expressions with the text of their leaves.  Mark is what may follow a quantifier: nothing, or the
      lazy or possessive sign. */
  datatype Regex =
    | Empty
    | Atom(text: string, accepts: iset<char>)
    | Anchor(text: string)
    | Cat(left: Regex, right: Regex)
    | Alt(left: Regex, right: Regex)
    | Repeat(body: Regex, quantifier: Quantifier, mark: string)
    | Group(head: string, body: Regex)
    | BackReference(digit: char, more: string)

  predicate WellFormed(re: Regex) {
    match re
    case Empty => true
    case Atom(text, _) => text != []
    case Anchor(_) => true
    case Cat(l, r) => WellFormed(l) && WellFormed(r)
    case Alt(l, r) => WellFormed(l) && WellFormed(r)
    case Repeat(body, _, _) => WellFormed(body)
    case Group(_, body) => WellFormed(body)
    case BackReference(digit, _) => '1' <= digit <= '9'
  }

  function Sign(q: Quantifier): string {
    match q
    case Star => "*"
    case Plus => "+"
    case Optional => "?"
    case Counted(_, _, text) => "{" + text + "}"
  }

  function Print(re: Regex): string {
    match re
    case Empty => ""
    case Atom(text, _) => text
    case Anchor(text) => text
    case Cat(l, r) => Print(l) + Print(r)
    case Alt(l, r) => Print(l) + "|" + Print(r)
    case Repeat(body, q, mark) => Print(body) + (Sign(q) + mark)
    case Group(head, body) => "(" + head + Print(body) + ")"
    case BackReference(digit, more) => ['\\', digit] + more
  }

  predicate Times(q: Quantifier, n: nat) {
    match q
    case Star => true
    case Plus => 1 <= n
    case Optional => n <= 1
    case Counted(min, max, _) => min <= n && (max.Some? ==> n <= max.value)
  }

  /** The strings an expression can consume, given what the numbered groups captured.  Anchors and look-around only
      restrict where a match may stand, so leaving their conditions out admits more matches, never fewer. */
  ghost predicate Matches(re: Regex, w: string, captured: map<string, string>)
    decreases re, 0
  {
    match re
    case Empty => w == []
    case Atom(_, accepts) => |w| == 1 && w[0] in accepts
    case Anchor(_) => w == []
    case Cat(l, r) => exists k :: 0 <= k <= |w| && Matches(l, w[..k], captured) && Matches(r, w[k..], captured)
    case Alt(l, r) => Matches(l, w, captured) || Matches(r, w, captured)
    case Repeat(body, q, _) => exists n :: Times(q, n) && Repeats(body, w, captured, n)
    case Group(_, body) => Matches(body, w, captured)
    case BackReference(digit, more) => [digit] + more in captured && w == captured[[digit] + more]
  }

  ghost predicate Repeats(re: Regex, w: string, captured: map<string, string>, n: nat)
    decreases re, n + 1
  {
    if n == 0 then w == []
    else exists k :: 0 <= k <= |w| && Matches(re, w[..k], captured) && Repeats(re, w[k..], captured, n - 1)
  }

  // ---------------------------------------------------------------- what the filter achieves

  predicate CleanAt(s: string, i: nat)
    requires i < |s|
  {
    !UnsafeAt(s, i) && s[i] != '*' && s[i] != '+'
  }

  predicate Clean(s: string) {
    forall i :: 0 <= i < |s| ==> CleanAt(s, i)
  }

  lemma {:induction false} CleanParts(a: string, b: string)
    requires Clean(a + b)
    ensures Clean(a) && Clean(b)
  {
    var s := a + b;
    forall i | 0 <= i < |a| ensures CleanAt(a, i) {
      assert CleanAt(s, i) && s[i] == a[i];
      assert i + 1 < |a| ==> s[i + 1] == a[i + 1];
      assert i + 2 < |a| ==> s[i + 2] == a[i + 2];
    }
    forall i | 0 <= i < |b| ensures CleanAt(b, i) {
      assert CleanAt(s, |a| + i) && s[|a| + i] == b[i];
      assert i + 1 < |b| ==> s[|a| + i + 1] == b[i + 1];
      assert i + 2 < |b| ==> s[|a| + i + 2] == b[i + 2];
    }
  }

  lemma {:induction false} UnsafeIsUnclean(s: string)
    requires s != [] && Clean(s)
    ensures !UnsafeAt(s, 0)
  {
    assert CleanAt(s, 0);
  }

  /** Clean text leaves only leaves, sequences, alternatives and optional parts, and those never consume more
      characters than they are written with. */
  lemma {:induction false} CleanMatchesAreShort(re: Regex, w: string, captured: map<string, string>)
    requires WellFormed(re) && Clean(Print(re)) && Matches(re, w, captured)
    ensures |w| <= |Print(re)|
    decreases re
  {
    match re
    case Empty =>
    case Atom(_, _) =>
    case Anchor(_) =>
    case Cat(l, r) =>
      CleanParts(Print(l), Print(r));
      var k :| 0 <= k <= |w| && Matches(l, w[..k], captured) && Matches(r, w[k..], captured);
      CleanMatchesAreShort(l, w[..k], captured);
      CleanMatchesAreShort(r, w[k..], captured);
    case Alt(l, r) =>
      CleanParts(Print(l) + "|", Print(r));
      CleanParts(Print(l), "|");
      if Matches(l, w, captured) {
        CleanMatchesAreShort(l, w, captured);
      } else {
        CleanMatchesAreShort(r, w, captured);
      }
    case Repeat(body, q, mark) =>
      CleanParts(Print(body), Sign(q) + mark);
      assert CleanAt(Sign(q) + mark, 0);
      assert q == Optional;
      var n :| Times(q, n) && Repeats(body, w, captured, n);
      if n > 0 {
        OneRepeat(body, w, captured);
        CleanMatchesAreShort(body, w, captured);
      }
    case Group(head, body) =>
      UnsafeIsUnclean(Print(re));
      assert false;
    case BackReference(_, _) =>
      UnsafeIsUnclean(Print(re));
      assert false;
  }

  lemma {:induction false} OneRepeat(re: Regex, w: string, captured: map<string, string>)
    requires Repeats(re, w, captured, 1)
    ensures Matches(re, w, captured)
  {
    var k :| 0 <= k <= |w| && Matches(re, w[..k], captured) && Repeats(re, w[k..], captured, 0);
    assert w[..k] == w;
  }

  /** Every accepted pattern matches only strings no longer than itself. */
  lemma {:induction false} AcceptedMatchesAreShort(re: Regex, w: string, captured: map<string, string>)
    requires WellFormed(re) && Accepted(Print(re)) && Matches(re, w, captured)
    ensures |w| <= |Print(re)| <= MAX_PATTERN_LENGTH
  {
    forall i | 0 <= i < |Print(re)| ensures CleanAt(Print(re), i) {
      assert !UnsafeAt(Print(re), i) && !QuantifierAt(Print(re), i);
    }
    CleanMatchesAreShort(re, w, captured);
  }

  // ---------------------------------------------------------------- why each exclusion is there

  function Same(n: nat): string {
    seq(n, _ => 'a')
  }

  const LETTER := Atom("a", iset{'a'})

  lemma {:induction false} LettersRepeat(n: nat)
    ensures Repeats(LETTER, Same(n), map[], n)
  {
    if n > 0 {
      LettersRepeat(n - 1);
      var w := Same(n);
      assert w[1..] == Same(n - 1);
      assert w[..1] == "a";
      assert Matches(LETTER, w[..1], map[]) && Repeats(LETTER, w[1..], map[], n - 1);
    }
  }

  /** Two characters of an unbounded quantifier match strings of any length. */
  lemma {:induction false} StarIsUnbounded(n: nat)
    ensures Print(Repeat(LETTER, Star, "")) == "a*"
    ensures Matches(Repeat(LETTER, Star, ""), Same(n), map[])
  {
    LettersRepeat(n);
    assert Times(Star, n);
  }

  /** A count is unbounded in the length of its pattern: five characters match ninety-nine. */
  lemma {:induction false} CountsOutgrowTheirText()
    ensures var re := Repeat(LETTER, Counted(99, Some(99), "99"), "");
            |Print(re)| == 5 && Matches(re, Same(99), map[])
  {
    LettersRepeat(99);
    assert Times(Counted(99, Some(99), "99"), 99);
  }

  /** So does a back-reference, whatever it captured. */
  lemma {:induction false} BackReferencesOutgrowTheirText(n: nat)
    ensures Print(BackReference('1', "")) == "\\1"
    ensures Matches(BackReference('1', ""), Same(n), map["1" := Same(n)])
  {
    assert ['1'] + "" == "1";
  }
}
