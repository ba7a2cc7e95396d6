/**
 * The address check `re.match(r'^[^@]+@[^@]+\.[^@]+$', value)`, written without a regex
 * engine. `IsEmailAddress` is the check the model runs; `MatchesPattern` reads the pattern
 * piece by piece (three non-empty runs free of '@', separated by '@' and '.'), and the two
 * are proved equivalent.
 */
module EmailPattern {

  /** Occurrences of `c` in `s`. */
  function Count(s: string, c: char): nat {
    if s == [] then 0 else (if s[0] == c then 1 else 0) + Count(s[1..], c)
  }

  /** Position of the first `c` in `s`, or `|s|` when there is none. */
  function IndexOf(s: string, c: char): (i: nat)
    ensures i <= |s|
    ensures i < |s| ==> s[i] == c
    ensures forall k :: 0 <= k < i ==> s[k] != c
  {
    if s == [] then 0 else if s[0] == c then 0 else 1 + IndexOf(s[1..], c)
  }

  /** A '.' with at least one character before it and one after it. */
  predicate HasInteriorDot(d: string) {
    exists k :: 0 < k < |d| - 1 && d[k] == '.'
  }

  /**
   * The address shape: exactly one '@', a non-empty local part before it, and a domain
   * after it holding a '.' that is neither its first nor its last character.
   */
  predicate IsEmailAddress(v: string)
    ensures IsEmailAddress(v) ==> 5 <= |v| && v[0] != '@'
  {
    && Count(v, '@') == 1
    && var at := IndexOf(v, '@');
    && 0 < at < |v|
    && HasInteriorDot(v[at + 1..])
  }

  /** No '@' anywhere in `v` except possibly at position `at`. */
  predicate AtOnlyAt(v: string, at: int) {
    forall k :: 0 <= k < |v| && k != at ==> v[k] != '@'
  }

  /**
   * A full match of `[^@]+@[^@]+\.[^@]+`: an '@' at `at`, a '.' at `dot`, each of the three
   * runs around them non-empty, and no other '@'. (`$` in the pattern also accepts a value
   * followed by one final newline; since `[^@]` matches a newline too, that changes nothing.)
   */
  ghost predicate MatchesPattern(v: string) {
    exists at, dot :: 0 < at && at + 1 < dot < |v| - 1 && v[at] == '@' && v[dot] == '.' && AtOnlyAt(v, at)
  }

  lemma {:induction false} CountNone(s: string, c: char)
    requires forall k :: 0 <= k < |s| ==> s[k] != c
    ensures Count(s, c) == 0
  {
    if s != [] {
      CountNone(s[1..], c);
    }
  }

  lemma {:induction false} CountZero(s: string, c: char)
    requires Count(s, c) == 0
    ensures forall k :: 0 <= k < |s| ==> s[k] != c
  {
    if s != [] {
      CountZero(s[1..], c);
      forall k | 0 < k < |s| ensures s[k] != c {
        assert s[k] == s[1..][k - 1];
      }
    }
  }

  /** Counting from the first occurrence on: that one plus those after it. */
  lemma {:induction false} CountFromFirst(s: string, c: char)
    requires IndexOf(s, c) < |s|
    ensures Count(s, c) == 1 + Count(s[IndexOf(s, c) + 1..], c)
  {
    if s[0] != c {
      CountFromFirst(s[1..], c);
      assert s[1..][IndexOf(s[1..], c) + 1..] == s[IndexOf(s, c) + 1..];
    }
  }

  lemma ShapeGivesPattern(v: string)
    requires IsEmailAddress(v)
    ensures MatchesPattern(v)
  {
    var at := IndexOf(v, '@');
    CountFromFirst(v, '@');
    var rest := v[at + 1..];
    CountZero(rest, '@');
    forall k | 0 <= k < |v| && k != at ensures v[k] != '@' {
      if k > at { assert v[k] == rest[k - at - 1]; }
    }
    var d :| 0 < d < |rest| - 1 && rest[d] == '.';
    assert v[at + 1 + d] == '.';
    assert AtOnlyAt(v, at);
  }

  lemma PatternGivesShape(v: string)
    requires MatchesPattern(v)
    ensures IsEmailAddress(v)
  {
    var a, dot :| 0 < a && a + 1 < dot < |v| - 1 && v[a] == '@' && v[dot] == '.' && AtOnlyAt(v, a);
    assert IndexOf(v, '@') == a;
    CountFromFirst(v, '@');
    var rest := v[a + 1..];
    CountNone(rest, '@');
    assert rest[dot - a - 1] == '.';
  }

  /** The executable check accepts exactly the values the pattern matches. */
  lemma EmailShapeMatchesPattern(v: string)
    ensures IsEmailAddress(v) <==> MatchesPattern(v)
  {
    if IsEmailAddress(v) {
      ShapeGivesPattern(v);
    }
    if MatchesPattern(v) {
      PatternGivesShape(v);
    }
  }

  /** A value holding two '@' is rejected, wherever they stand. */
  lemma TwoAtsRejected(v: string, i: nat, j: nat)
    requires i < j < |v| && v[i] == '@' && v[j] == '@'
    ensures !IsEmailAddress(v)
  {
    if IsEmailAddress(v) {
      ShapeGivesPattern(v);
    }
  }

  /** A value without '@' is rejected; so is the empty value. */
  lemma NoAtRejected(v: string)
    requires '@' !in v
    ensures !IsEmailAddress(v)
  {
    assert forall k :: 0 <= k < |v| ==> v[k] != '@' by {
      forall k | 0 <= k < |v| ensures v[k] != '@' { assert v[k] in v; }
    }
    CountNone(v, '@');
  }

  // Sample values for the lemmas below. Naming them keeps the verifier from unfolding
  // every function applied to the literal.
  const NoAt: string := "not-an-email"
  const NoDot: string := "a@b"
  const EmptyLocalPart: string := "@example.com"
  const DoubleAt: string := "a@@example.com"
  const PlainAddress: string := "alice@example.com"

  lemma RejectsMissingAt()
    ensures !IsEmailAddress(NoAt)
  {
    NoAtRejected(NoAt);
  }

  /** A domain without a dot is rejected. */
  lemma RejectsDomainWithoutDot()
    ensures !IsEmailAddress(NoDot)
  {
    assert IndexOf(NoDot, '@') == 1;
  }

  /** An empty local part is rejected. */
  lemma RejectsEmptyLocalPart()
    ensures !IsEmailAddress(EmptyLocalPart)
  {
    assert EmptyLocalPart[0] == '@';
  }

  /** A second '@' is rejected. */
  lemma RejectsDoubleAt()
    ensures !IsEmailAddress(DoubleAt)
  {
    assert DoubleAt[1] == '@' && DoubleAt[2] == '@';
    TwoAtsRejected(DoubleAt, 1, 2);
  }

  /** An ordinary address is accepted. */
  lemma AcceptsPlainAddress()
    ensures IsEmailAddress(PlainAddress)
  {
    var v := PlainAddress;
    assert v[5] == '@' && v[13] == '.' && AtOnlyAt(v, 5);
    PatternGivesShape(v);
  }
}
