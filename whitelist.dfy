/**
 * `WhitelistHelper.Matches`: tests a resource name against allow-list
 * entries. An entry without `*` must equal the name (ordinal, or ordinal
 * ignoring case). An entry with `*` is turned into a regular expression in
 * which every other character is escaped, so stands for itself, and each `*`
 * becomes `.+`; the expression is searched for anywhere in the name.
 */
module WhitelistHelper {
  import opened Text

  const Wildcard: char := '*'

  /** The regular-expression `.` without the Singleline option: anything but a line feed. */
  predicate AnyChar(c: char)
  {
    c != '\n'
  }

  /**
   * Does the whole of `s` fit the translated pattern `p`? A `*` takes one or
   * more characters; every other character of `p` matches itself.
   */
  predicate GlobMatch(p: string, s: string, ignoreCase: bool)
    decreases |s|
  {
    if p == [] then s == []
    else if s == [] then false
    else if p[0] == Wildcard then
      AnyChar(s[0]) && (GlobMatch(p[1..], s[1..], ignoreCase) || GlobMatch(p, s[1..], ignoreCase))
    else
      CharEquals(s[0], p[0], ignoreCase) && GlobMatch(p[1..], s[1..], ignoreCase)
  }

  /** Does some prefix of `s` fit `p`? (the regex engine trying one start position) */
  predicate MatchesPrefix(p: string, s: string, ignoreCase: bool)
    decreases |s|
  {
    if p == [] then true
    else if s == [] then false
    else if p[0] == Wildcard then
      AnyChar(s[0]) && (MatchesPrefix(p[1..], s[1..], ignoreCase) || MatchesPrefix(p, s[1..], ignoreCase))
    else
      CharEquals(s[0], p[0], ignoreCase) && MatchesPrefix(p[1..], s[1..], ignoreCase)
  }

  /** `Regex.IsMatch`: try every start position from the left. */
  predicate IsMatch(p: string, s: string, ignoreCase: bool)
  {
    MatchesPrefix(p, s, ignoreCase) || (s != [] && IsMatch(p, s[1..], ignoreCase))
  }

  /** One allow-list entry. */
  predicate EntryMatches(name: string, entry: string, ignoreCase: bool)
  {
    if Wildcard in entry then IsMatch(entry, name, ignoreCase)
    else StringEquals(name, entry, ignoreCase)
  }

  /** The `foreach` over the entries, returning on the first one that matches. */
  function Matches(name: string, whitelist: seq<string>, ignoreCase: bool): (r: bool)
    ensures whitelist == [] ==> !r
    ensures r <==> exists i :: 0 <= i < |whitelist| && EntryMatches(name, whitelist[i], ignoreCase)
  {
    if whitelist == [] then false
    else EntryMatches(name, whitelist[0], ignoreCase) || Matches(name, whitelist[1..], ignoreCase)
  }

  // ---------------------------------------------------------------------------
  // Reference definition: an unanchored search is a fit of some infix

  ghost predicate SomeInfixFits(p: string, s: string, ignoreCase: bool)
  {
    exists i, j :: 0 <= i <= j <= |s| && GlobMatch(p, s[i..j], ignoreCase)
  }

  lemma {:induction false} PrefixFits(p: string, s: string, ignoreCase: bool)
    ensures MatchesPrefix(p, s, ignoreCase) <==> exists k :: 0 <= k <= |s| && GlobMatch(p, s[..k], ignoreCase)
    decreases |s|
  {
    if p == [] {
      assert GlobMatch(p, s[..0], ignoreCase);
    } else if s == [] {
      forall k | 0 <= k <= |s| ensures !GlobMatch(p, s[..k], ignoreCase) {
        assert s[..k] == [];
      }
    } else {
      PrefixFits(p[1..], s[1..], ignoreCase);
      PrefixFits(p, s[1..], ignoreCase);
      if MatchesPrefix(p, s, ignoreCase) {
        var k' :| 0 <= k' <= |s| - 1 &&
          (GlobMatch(p[1..], s[1..][..k'], ignoreCase) || (p[0] == Wildcard && GlobMatch(p, s[1..][..k'], ignoreCase)));
        assert s[..k' + 1][1..] == s[1..][..k'];
        assert GlobMatch(p, s[..k' + 1], ignoreCase);
      }
      if exists k :: 0 <= k <= |s| && GlobMatch(p, s[..k], ignoreCase) {
        var k :| 0 <= k <= |s| && GlobMatch(p, s[..k], ignoreCase);
        assert k >= 1;
        assert s[..k][1..] == s[1..][..k - 1];
      }
    }
  }

  /** An infix of the tail is an infix of the whole. */
  lemma TailInfixFits(p: string, s: string, ignoreCase: bool)
    requires s != [] && SomeInfixFits(p, s[1..], ignoreCase)
    ensures SomeInfixFits(p, s, ignoreCase)
  {
    var i, j :| 0 <= i <= j <= |s| - 1 && GlobMatch(p, s[1..][i..j], ignoreCase);
    assert s[1..][i..j] == s[i + 1..j + 1];
    assert GlobMatch(p, s[i + 1..j + 1], ignoreCase);
  }

  /** An infix that does not start at the front is an infix of the tail. */
  lemma InnerInfixFits(p: string, s: string, i: nat, j: nat, ignoreCase: bool)
    requires 1 <= i <= j <= |s| && GlobMatch(p, s[i..j], ignoreCase)
    ensures SomeInfixFits(p, s[1..], ignoreCase)
  {
    assert s[1..][i - 1..j - 1] == s[i..j];
  }

  /** `IsMatch` holds exactly when some contiguous part of `s` fits the pattern. */
  lemma {:induction false} SearchFindsInfix(p: string, s: string, ignoreCase: bool)
    ensures IsMatch(p, s, ignoreCase) <==> SomeInfixFits(p, s, ignoreCase)
    decreases |s|
  {
    PrefixFits(p, s, ignoreCase);
    if s != [] {
      SearchFindsInfix(p, s[1..], ignoreCase);
    }
    if IsMatch(p, s, ignoreCase) {
      if MatchesPrefix(p, s, ignoreCase) {
        var k :| 0 <= k <= |s| && GlobMatch(p, s[..k], ignoreCase);
        assert s[0..k] == s[..k];
      } else {
        TailInfixFits(p, s, ignoreCase);
      }
    }
    if SomeInfixFits(p, s, ignoreCase) {
      var i, j :| 0 <= i <= j <= |s| && GlobMatch(p, s[i..j], ignoreCase);
      if i == 0 {
        assert s[..j] == s[i..j];
      } else {
        InnerInfixFits(p, s, i, j, ignoreCase);
      }
    }
  }

  // ---------------------------------------------------------------------------
  // What a pattern accepts

  /** Every pattern character, `*` included, consumes at least one character. */
  lemma {:induction false} FitIsNoShorterThanPattern(p: string, s: string, ignoreCase: bool)
    requires GlobMatch(p, s, ignoreCase)
    ensures |s| >= |p|
    decreases |s|
  {
    if p != [] {
      if p[0] == Wildcard && !GlobMatch(p[1..], s[1..], ignoreCase) {
        FitIsNoShorterThanPattern(p, s[1..], ignoreCase);
      } else {
        FitIsNoShorterThanPattern(p[1..], s[1..], ignoreCase);
      }
    }
  }

  /** Without `*`, every character (`.`, `+`, `?` included) stands for itself. */
  lemma {:induction false} StarFreePatternIsLiteral(p: string, s: string, ignoreCase: bool)
    requires Wildcard !in p
    ensures GlobMatch(p, s, ignoreCase) <==> StringEquals(s, p, ignoreCase)
    decreases |s|
  {
    if p != [] && s != [] {
      StarFreePatternIsLiteral(p[1..], s[1..], ignoreCase);
      if StringEquals(s, p, ignoreCase) {
        assert forall i :: 0 <= i < |s| - 1 ==> s[1..][i] == s[i + 1] && p[1..][i] == p[i + 1];
      }
      if GlobMatch(p, s, ignoreCase) {
        assert forall i :: 1 <= i < |s| ==> s[i] == s[1..][i - 1] && p[i] == p[1..][i - 1];
      }
    }
  }

  predicate NoLineFeed(s: string)
  {
    forall k :: 0 <= k < |s| ==> AnyChar(s[k])
  }

  /** A lone `*` fits exactly the non-empty strings without a line feed. */
  lemma {:induction false} StarFitsNonEmptyLine(s: string, ignoreCase: bool)
    ensures GlobMatch([Wildcard], s, ignoreCase) <==> s != [] && NoLineFeed(s)
    decreases |s|
  {
    if s != [] {
      StarFitsNonEmptyLine(s[1..], ignoreCase);
      assert [Wildcard][1..] == [];
      assert GlobMatch([], s[1..], ignoreCase) <==> s[1..] == [];
      assert NoLineFeed(s) <==> AnyChar(s[0]) && NoLineFeed(s[1..]) by {
        assert forall k :: 1 <= k < |s| ==> s[k] == s[1..][k - 1];
      }
    }
  }

  /** `Foo*` fits a string iff it starts with `Foo` and continues with at least one more character. */
  lemma {:induction false} TrailingStarFits(lit: string, s: string, ignoreCase: bool)
    requires Wildcard !in lit
    ensures GlobMatch(lit + [Wildcard], s, ignoreCase) <==>
      |s| > |lit| && StringEquals(s[..|lit|], lit, ignoreCase) && NoLineFeed(s[|lit|..])
    decreases |lit|
  {
    var p := lit + [Wildcard];
    if lit == [] {
      assert p == [Wildcard];
      StarFitsNonEmptyLine(s, ignoreCase);
    } else {
      assert p[0] == lit[0] && p[1..] == lit[1..] + [Wildcard];
      if |s| <= |lit| {
        if GlobMatch(p, s, ignoreCase) {
          FitIsNoShorterThanPattern(p, s, ignoreCase);
        }
      } else {
        TrailingStarFits(lit[1..], s[1..], ignoreCase);
        assert s[1..][|lit| - 1..] == s[|lit|..];
        var head := s[..|lit|];
        assert s[1..][..|lit| - 1] == head[1..];
        assert StringEquals(head, lit, ignoreCase) <==>
          CharEquals(s[0], lit[0], ignoreCase) && StringEquals(head[1..], lit[1..], ignoreCase) by {
          assert forall i :: 1 <= i < |lit| ==> head[i] == head[1..][i - 1] && lit[i] == lit[1..][i - 1];
        }
      }
    }
  }

  // ---------------------------------------------------------------------------
  // The allow-list as a whole

  /** The answer depends only on which entries are present, not on their order or repetition. */
  lemma EntryOrderIrrelevant(name: string, a: seq<string>, b: seq<string>, ignoreCase: bool)
    requires forall e :: e in a <==> e in b
    ensures Matches(name, a, ignoreCase) == Matches(name, b, ignoreCase)
  {
    if Matches(name, a, ignoreCase) {
      var i :| 0 <= i < |a| && EntryMatches(name, a[i], ignoreCase);
      assert a[i] in a;
      var j :| 0 <= j < |b| && b[j] == a[i];
    }
    if Matches(name, b, ignoreCase) {
      var j :| 0 <= j < |b| && EntryMatches(name, b[j], ignoreCase);
      assert b[j] in b;
      var i :| 0 <= i < |a| && a[i] == b[j];
    }
  }

  /** An entry without `*` accepts exactly the names equal to it. */
  lemma LiteralEntry(name: string, entry: string, ignoreCase: bool)
    requires Wildcard !in entry
    ensures Matches(name, [entry], ignoreCase) <==> StringEquals(name, entry, ignoreCase)
  {
  }

  /** A wildcard entry accepts a name iff some infix of the name fits it. */
  lemma WildcardEntry(name: string, entry: string, ignoreCase: bool)
    requires Wildcard in entry
    ensures Matches(name, [entry], ignoreCase) <==> SomeInfixFits(entry, name, ignoreCase)
  {
    SearchFindsInfix(entry, name, ignoreCase);
  }

  // ---------------------------------------------------------------------------
  // The cases the repository's own tests expect

  lemma SingleEntryCases()
    ensures Matches("Foo", ["Foo"], false)
    ensures Matches("Foo-bar", ["Foo-*"], false)
    ensures !Matches("Foo", ["Foo-*"], false)
  {
    assert MatchesPrefix("*", "bar", false);
    assert MatchesPrefix("Foo-*", "Foo-bar", false);
    assert EntryMatches("Foo-bar", ["Foo-*"][0], false);
  }

  /** A trailing `*` asks for at least one more character. */
  lemma TrailingStarCases()
    ensures !Matches("Foo", ["Foo*"], false)
    ensures Matches("Foo1", ["Foo*"], false)
  {
  }

  lemma MultipleEntryCases()
    ensures Matches("Foo", ["Foo", "Bar"], false)
    ensures Matches("Foo", ["F*", "Bar"], false)
    ensures !Matches("Foo", ["Foo*", "Bar"], false)
  {
  }

  lemma SuffixEntryCases()
    ensures Matches("App-DEV", ["*-DEV", "Foo"], false)
  {
    assert MatchesPrefix("-DEV", "-DEV", false);
    assert MatchesPrefix("*-DEV", "p-DEV", false);
    assert MatchesPrefix("*-DEV", "pp-DEV", false);
    assert EntryMatches("App-DEV", ["*-DEV", "Foo"][0], false);
  }

  lemma WrongCaseSuffixCase()
    ensures !Matches("App-DEV", ["*-dev", "Foo"], false)
  {
  }

  lemma OtherSuffixCases()
    ensures !Matches("App-PRD", ["*-dev", "Foo"], false)
    ensures !Matches("App-PRD", ["*-dev", "PRD"], false)
  {
  }

  lemma CaseSensitiveCases()
    ensures !Matches("Foo", ["foo"], false)
    ensures !Matches("Foo", ["FOO"], false)
    ensures !Matches("Foo", ["f*"], false)
    ensures !Matches("Foo", ["*OO"], false)
  {
    assert "Foo"[0] != "foo"[0];
    assert "Foo"[1] != "FOO"[1];
  }

  lemma IgnoreCaseCases()
    ensures Matches("Foo", ["foo"], true) && Matches("Foo", ["FOO"], true) && Matches("Foo", ["f*"], true)
  {
  }

  lemma IgnoreCaseMultipleCases()
    ensures Matches("Foo", ["*-dev", "Foo"], true)
  {
  }

  lemma IgnoreCaseWildcardCase()
    ensures Matches("App-DEV", ["*-dev", "Foo"], true)
  {
    assert MatchesPrefix("-dev", "-DEV", true);
    assert MatchesPrefix("*-dev", "p-DEV", true);
    assert MatchesPrefix("*-dev", "pp-DEV", true);
    assert EntryMatches("App-DEV", ["*-dev", "Foo"][0], true);
  }

  lemma IgnoreCaseSecondWildcardCase()
    ensures Matches("App-PRD", ["*-dev", "*-prd"], true)
  {
    assert MatchesPrefix("-prd", "-PRD", true);
    assert MatchesPrefix("*-prd", "p-PRD", true);
    assert MatchesPrefix("*-prd", "pp-PRD", true);
    assert EntryMatches("App-PRD", ["*-dev", "*-prd"][1], true);
  }

  /** Wildcard entries are not anchored, and their other characters are not regex syntax. */
  lemma UnanchoredCase()
    ensures Matches("XFoo-bar", ["Foo-*"], false)
  {
    assert MatchesPrefix("*", "bar", false);
    assert MatchesPrefix("Foo-*", "Foo-bar", false);
    assert "XFoo-bar"[1..] == "Foo-bar";
    assert EntryMatches("XFoo-bar", ["Foo-*"][0], false);
  }

  /** `.`, `+` and `?` in a wildcard entry stand for themselves. */
  lemma EscapedDotCases()
    ensures Matches("a.b1", ["a.b*"], false) && !Matches("aXb1", ["a.b*"], false)
  {
  }

  lemma EscapedQuantifierCases()
    ensures !Matches("ab1", ["a+b*"], false)
    ensures !Matches("b1", ["a?b*"], false)
  {
  }
}
