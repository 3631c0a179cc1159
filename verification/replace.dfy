/** String replacement as `String.prototype.replaceAll(pattern, replacement)`
    performs it when both arguments are strings: the subject is scanned left
    to right and every non-overlapping occurrence of the pattern is
    replaced; text produced by a replacement is never scanned again.

    `ReplaceAll` is the literal replacement the extension means to perform.
    `JsReplaceAll` is what the engine actually does, where the replacement
    string is a template whose `$$`, `$&`, `` $` `` and `$'` sequences are
    expanded (the GetSubstitution operation of ECMA-262, the ECMAScript language specification). The two
    agree whenever the replacement holds no `$`. */
module Replace {
  import opened Basics

  /** True iff pattern occurs in s starting at position k. */
  predicate OccursAt(s: string, pattern: string, k: nat) {
    k + |pattern| <= |s| && s[k..k + |pattern|] == pattern
  }

  /** True iff pattern occurs nowhere in s. */
  ghost predicate Absent(s: string, pattern: string) {
    forall k: nat :: !OccursAt(s, pattern, k)
  }

  /** Literal replacement of every non-overlapping occurrence, left to right. */
  function ReplaceAll(s: string, pattern: string, replacement: string): (r: string)
    requires pattern != []
    decreases |s|
  {
    if |s| < |pattern| then s
    else if s[..|pattern|] == pattern then replacement + ReplaceAll(s[|pattern|..], pattern, replacement)
    else [s[0]] + ReplaceAll(s[1..], pattern, replacement)
  }

  /** A string without the pattern comes back unchanged. */
  lemma {:induction false} ReplaceAllAbsent(s: string, pattern: string, replacement: string)
    requires pattern != [] && Absent(s, pattern)
    ensures ReplaceAll(s, pattern, replacement) == s
    decreases |s|
  {
    if |s| >= |pattern| {
      assert !OccursAt(s, pattern, 0);
      assert s[..|pattern|] == s[0..|pattern|];
      var t := s[1..];
      forall k: nat ensures !OccursAt(t, pattern, k) {
        assert !OccursAt(s, pattern, k + 1);
        if k + |pattern| <= |t| {
          assert t[k..k + |pattern|] == s[k + 1..k + 1 + |pattern|];
        }
      }
      ReplaceAllAbsent(t, pattern, replacement);
    }
  }

  /** The pattern itself is replaced by exactly the replacement, whatever the
      replacement contains: replaced text is not rescanned. */
  lemma ReplaceAllWhole(pattern: string, replacement: string)
    requires pattern != []
    ensures ReplaceAll(pattern, pattern, replacement) == replacement
  {
    assert pattern[|pattern|..] == [];
  }

  /** An occurrence at the front is replaced and the scan resumes after it. */
  lemma ReplaceAllLeading(pattern: string, t: string, replacement: string)
    requires pattern != []
    ensures ReplaceAll(pattern + t, pattern, replacement) == replacement + ReplaceAll(t, pattern, replacement)
  {
    assert (pattern + t)[..|pattern|] == pattern;
    assert (pattern + t)[|pattern|..] == t;
  }

  /** A text without the pattern's first character is copied through. */
  lemma {:induction false} ReplaceAllPassesOver(a: string, t: string, pattern: string, replacement: string)
    requires pattern != [] && pattern[0] !in a
    ensures ReplaceAll(a + t, pattern, replacement) == a + ReplaceAll(t, pattern, replacement)
    decreases |a|
  {
    if a != [] {
      var s := a + t;
      assert s[1..] == a[1..] + t;
      if |s| < |pattern| {
        assert ReplaceAll(t, pattern, replacement) == t;
      } else {
        assert s[..|pattern|][0] == a[0];
        assert ReplaceAll(s, pattern, replacement) == [a[0]] + ReplaceAll(a[1..] + t, pattern, replacement);
        ReplaceAllPassesOver(a[1..], t, pattern, replacement);
        assert [a[0]] + (a[1..] + ReplaceAll(t, pattern, replacement)) == a + ReplaceAll(t, pattern, replacement);
      }
    } else {
      assert a + t == t;
    }
  }

  /** A text that starts like the pattern but departs from it at its second
      character, and does not contain the pattern's first character again,
      is copied through. */
  lemma ReplaceAllPassesNearMiss(q: string, t: string, pattern: string, replacement: string)
    requires |q| >= 2 && |pattern| >= 2 && q[1] != pattern[1] && pattern[0] !in q[1..]
    ensures ReplaceAll(q + t, pattern, replacement) == q + ReplaceAll(t, pattern, replacement)
  {
    var s := q + t;
    var rest := ReplaceAll(t, pattern, replacement);
    if |s| < |pattern| {
      assert ReplaceAll(s, pattern, replacement) == s;
      assert rest == t;
    } else {
      assert s[..|pattern|] != pattern by {
        assert s[..|pattern|][1] == q[1];
      }
      assert ReplaceAll(s, pattern, replacement) == [q[0]] + ReplaceAll(s[1..], pattern, replacement);
      assert s[1..] == q[1..] + t;
      ReplaceAllPassesOver(q[1..], t, pattern, replacement);
      assert [q[0]] + (q[1..] + rest) == q + rest;
    }
  }

  /** For a one-character pattern, replacement distributes over the first
      character. */
  lemma ReplaceCharCons(x: char, t: string, c: char, replacement: string)
    ensures ReplaceAll([x] + t, [c], replacement)
         == (if x == c then replacement else [x]) + ReplaceAll(t, [c], replacement)
  {
    assert ([x] + t)[1..] == t;
    assert ([x] + t)[..1] == [x];
  }

  /** A one-character pattern that does not occur leaves the subject unchanged. */
  lemma {:induction false} ReplaceCharAbsent(s: string, c: char, replacement: string)
    requires c !in s
    ensures ReplaceAll(s, [c], replacement) == s
    decreases |s|
  {
    if s != [] {
      assert s == [s[0]] + s[1..];
      ReplaceCharCons(s[0], s[1..], c, replacement);
      ReplaceCharAbsent(s[1..], c, replacement);
    }
  }

  /** For a one-character pattern, replacement distributes over concatenation. */
  lemma {:induction false} ReplaceCharAppend(a: string, b: string, c: char, replacement: string)
    ensures ReplaceAll(a + b, [c], replacement)
         == ReplaceAll(a, [c], replacement) + ReplaceAll(b, [c], replacement)
    decreases |a|
  {
    if a == [] {
      assert a + b == b;
    } else {
      assert a + b == [a[0]] + (a[1..] + b);
      assert a == [a[0]] + a[1..];
      ReplaceCharCons(a[0], a[1..] + b, c, replacement);
      ReplaceCharCons(a[0], a[1..], c, replacement);
      ReplaceCharAppend(a[1..], b, c, replacement);
    }
  }

  /** A one-character pattern is absent from the result when the replacement
      does not hold it. */
  lemma {:induction false} ReplaceCharRemoves(s: string, c: char, replacement: string)
    requires c !in replacement
    ensures c !in ReplaceAll(s, [c], replacement)
    decreases |s|
  {
    if s != [] {
      assert s == [s[0]] + s[1..];
      ReplaceCharCons(s[0], s[1..], c, replacement);
      ReplaceCharRemoves(s[1..], c, replacement);
    }
  }

  /** A character that is neither the one-character pattern nor in the
      replacement does not appear in the result unless it was in the subject. */
  lemma {:induction false} ReplaceCharKeepsOut(s: string, c: char, replacement: string, d: char)
    requires d !in s && d !in replacement
    ensures d !in ReplaceAll(s, [c], replacement)
    decreases |s|
  {
    if s != [] {
      assert s == [s[0]] + s[1..];
      ReplaceCharCons(s[0], s[1..], c, replacement);
      ReplaceCharKeepsOut(s[1..], c, replacement, d);
    }
  }

  /** GetSubstitution for a match without capture groups: `$$` gives `$`,
      `$&` the matched text, `` $` `` the text before the match, `$'` the text
      after it; any other `$` is kept as it is. */
  function Substitution(template: string, matched: string, before: string, after: string): (r: string)
    ensures '$' !in template ==> r == template
    decreases |template|
  {
    if template == [] then []
    else if template[0] == '$' && |template| >= 2 && template[1] in "$&`'" then
      (match template[1]
       case '$' => "$"
       case '&' => matched
       case '`' => before
       case _ => after)
      + Substitution(template[2..], matched, before, after)
    else [template[0]] + Substitution(template[1..], matched, before, after)
  }

  /** `s.replaceAll(pattern, replacement)` as the engine runs it, scanning s
      from position i. */
  function JsReplaceFrom(s: string, i: nat, pattern: string, replacement: string): (r: string)
    requires pattern != [] && i <= |s|
    decreases |s| - i
  {
    if |s| - i < |pattern| then s[i..]
    else if s[i..i + |pattern|] == pattern then
      Substitution(replacement, pattern, s[..i], s[i + |pattern|..])
      + JsReplaceFrom(s, i + |pattern|, pattern, replacement)
    else [s[i]] + JsReplaceFrom(s, i + 1, pattern, replacement)
  }

  function JsReplaceAll(s: string, pattern: string, replacement: string): string
    requires pattern != []
  {
    JsReplaceFrom(s, 0, pattern, replacement)
  }

  /** Without `$` in the replacement the engine's replacement is the literal one. */
  lemma {:induction false} JsReplaceFromLiteral(s: string, i: nat, pattern: string, replacement: string)
    requires pattern != [] && i <= |s| && '$' !in replacement
    ensures JsReplaceFrom(s, i, pattern, replacement) == ReplaceAll(s[i..], pattern, replacement)
    decreases |s| - i
  {
    var t := s[i..];
    if |s| - i >= |pattern| {
      assert t[..|pattern|] == s[i..i + |pattern|];
      if s[i..i + |pattern|] == pattern {
        assert t[|pattern|..] == s[i + |pattern|..];
        JsReplaceFromLiteral(s, i + |pattern|, pattern, replacement);
      } else {
        assert t[1..] == s[i + 1..];
        JsReplaceFromLiteral(s, i + 1, pattern, replacement);
      }
    }
  }

  lemma JsReplaceAllLiteral(s: string, pattern: string, replacement: string)
    requires pattern != [] && '$' !in replacement
    ensures JsReplaceAll(s, pattern, replacement) == ReplaceAll(s, pattern, replacement)
  {
    JsReplaceFromLiteral(s, 0, pattern, replacement);
    assert s[0..] == s;
  }

  /** A subject that is exactly the pattern is replaced by the expanded
      template, with empty text before and after the match. */
  lemma JsReplaceAllWhole(pattern: string, replacement: string)
    requires pattern != []
    ensures JsReplaceAll(pattern, pattern, replacement) == Substitution(replacement, pattern, "", "")
  {
    assert pattern[0..|pattern|] == pattern;
    assert pattern[..0] == "" && pattern[|pattern|..] == "";
    assert JsReplaceFrom(pattern, |pattern|, pattern, replacement) == "";
  }

  /** `$&` expands to the matched text. */
  lemma SubstitutionMatched(matched: string, before: string, after: string)
    ensures Substitution("$&", matched, before, after) == matched
  {
    var t := "$&";
    assert t[0] == '$' && t[1] == '&' && t[2..] == [];
  }
}
