/** Matching one file name against a `pathlib` glob pattern: `*` stands for any run of
    characters (also none), `?` for any one character, everything else for itself. Matching
    is case-sensitive, as on a POSIX file system. */
module Glob {
  import opened Text

  predicate Match(pattern: string, name: string)
    decreases |pattern| + |name|
  {
    if pattern == [] then name == []
    else if pattern[0] == '*' then Match(pattern[1..], name) || (name != [] && Match(pattern, name[1..]))
    else name != [] && (pattern[0] == '?' || pattern[0] == name[0]) && Match(pattern[1..], name[1..])
  }

  /** A pattern piece without wildcards. */
  predicate Literal(s: string) {
    '*' !in s && '?' !in s
  }

  /** A pattern without wildcards matches exactly itself. */
  lemma {:induction false} MatchLiteral(lit: string, name: string)
    requires Literal(lit)
    ensures Match(lit, name) <==> name == lit
  {
    if lit != [] && name != [] {
      MatchLiteral(lit[1..], name[1..]);
      if name[1..] == lit[1..] && name[0] == lit[0] {
        assert name == [name[0]] + name[1..] && lit == [lit[0]] + lit[1..];
      }
    }
  }

  /** A literal head of a pattern must be a prefix of the name; the rest matches the rest. */
  lemma {:induction false} MatchLiteralPrefix(lit: string, p: string, name: string)
    requires Literal(lit)
    ensures Match(lit + p, name) <==> IsPrefix(lit, name) && Match(p, name[|lit|..])
    decreases |lit|
  {
    if lit == [] {
      assert lit + p == p;
    } else {
      assert (lit + p)[0] == lit[0];
      assert (lit + p)[1..] == lit[1..] + p;
      if name != [] {
        MatchLiteralPrefix(lit[1..], p, name[1..]);
        if |lit| <= |name| {
          assert name[|lit|..] == name[1..][|lit| - 1..];
          assert name[..|lit|] == [name[0]] + name[1..][..|lit| - 1];
          assert lit == [lit[0]] + lit[1..];
        }
      }
    }
  }

  /** `*` followed by a literal matches exactly the names ending with that literal. */
  lemma {:induction false} MatchStarLiteral(lit: string, name: string)
    requires Literal(lit)
    ensures Match("*" + lit, name) <==> IsSuffix(lit, name)
    decreases |name|
  {
    var p := "*" + lit;
    assert p[0] == '*' && p[1..] == lit;
    MatchLiteral(lit, name);
    if name != [] {
      MatchStarLiteral(lit, name[1..]);
      if |lit| <= |name[1..]| {
        assert name[1..][|name[1..]| - |lit|..] == name[|name| - |lit|..];
      }
    }
    if IsSuffix(lit, name) && name != lit {
      assert |lit| < |name|;
      assert name[1..][|name[1..]| - |lit|..] == name[|name| - |lit|..];
    }
  }

  /** `pre*suf` with literal `pre` and `suf` matches the names that start with `pre`, end
      with `suf` and are long enough to hold both. */
  lemma MatchPrefixStarSuffix(pre: string, suf: string, name: string)
    requires Literal(pre) && Literal(suf)
    ensures Match(pre + "*" + suf, name) <==>
            |name| >= |pre| + |suf| && IsPrefix(pre, name) && IsSuffix(suf, name)
  {
    var star := "*" + suf;
    assert pre + "*" + suf == pre + star;
    MatchLiteralPrefix(pre, star, name);
    if IsPrefix(pre, name) {
      MatchStarLiteral(suf, name[|pre|..]);
      SuffixOfRest(name, |pre|, suf);
    }
  }

  /** A suffix of what follows position `k` is a suffix of the whole. */
  lemma SuffixOfRest(name: string, k: nat, suf: string)
    requires k <= |name|
    ensures IsSuffix(suf, name[k..]) <==> |name| - k >= |suf| && IsSuffix(suf, name)
  {
    if |name| - k >= |suf| {
      assert name[k..][|name| - k - |suf|..] == name[|name| - |suf|..];
    }
  }
}
