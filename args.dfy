/**
 * The argument template of the configured command (`command.args`) and how it
 * becomes the positional arguments of the process: `strings.Split(args, " ")`.
 * A single space is the only separator: there is no quoting or escaping, and
 * the empty pieces between adjacent spaces (or at either end) are kept.
 */
module ArgTemplate {

  const Space: char := ' '

  /**
   * The template cut on every space, as Go's `strings.Split(s, " ")` does it.
   * The result always has one more part than `s` has spaces, so the empty
   * template gives a single empty argument.
   */
  function Split(s: string): (parts: seq<string>)
    ensures |parts| == multiset(s)[Space] + 1
    ensures forall i :: 0 <= i < |parts| ==> Space !in parts[i]
  {
    if s == [] then
      [[]]
    else
      assert s == [s[0]] + s[1..];
      var rest := Split(s[1..]);
      if s[0] == Space then
        [[]] + rest
      else
        [[s[0]] + rest[0]] + rest[1..]
  }

  /** The parts put back together with one space between neighbours (Go's `strings.Join(parts, " ")`). */
  function Join(parts: seq<string>): (s: string)
  {
    if |parts| == 0 then []
    else if |parts| == 1 then parts[0]
    else parts[0] + [Space] + Join(parts[1..])
  }

  /** No part contains a space. */
  ghost predicate SpaceFree(parts: seq<string>)
  {
    forall i :: 0 <= i < |parts| ==> Space !in parts[i]
  }

  /** Splitting and re-joining gives back the template exactly. */
  lemma {:induction false} JoinSplit(s: string)
    ensures Join(Split(s)) == s
  {
    if s != [] {
      var rest := Split(s[1..]);
      JoinSplit(s[1..]);
      if s[0] == Space {
        assert Split(s) == [[]] + rest;
        assert Join(Split(s)) == [] + [Space] + Join(rest);
      } else {
        JoinHead(s[0], rest);
      }
    }
  }

  /** Prefixing the first part with a character prefixes the join with it. */
  lemma JoinHead(c: char, parts: seq<string>)
    requires |parts| >= 1
    ensures Join([[c] + parts[0]] + parts[1..]) == [c] + Join(parts)
  {
  }

  /**
   * The other direction: any non-empty list of space-free parts is what
   * splitting its join gives back, so `Split` is the only decomposition of a
   * template into space-free pieces separated by single spaces.
   */
  lemma {:induction false} SplitJoin(parts: seq<string>)
    requires |parts| >= 1 && SpaceFree(parts)
    ensures Split(Join(parts)) == parts
  {
    if |parts| == 1 {
      SplitSpaceFree(parts[0]);
    } else {
      var tail := parts[1..];
      assert SpaceFree(tail) by {
        forall i | 0 <= i < |tail| ensures Space !in tail[i] {
          assert tail[i] == parts[i + 1];
        }
      }
      SplitJoin(tail);
      SplitWordSpace(parts[0], Join(tail));
      assert [parts[0]] + tail == parts;
    }
  }

  /** A template without spaces is a single argument. */
  lemma {:induction false} SplitSpaceFree(w: string)
    requires Space !in w
    ensures Split(w) == [w]
  {
    if w != [] {
      SplitSpaceFree(w[1..]);
      assert [w[0]] + w[1..] == w;
    }
  }

  /** A space-free prefix is glued onto the first part of what follows it. */
  lemma {:induction false} SplitPrefix(w: string, t: string)
    requires Space !in w
    ensures |Split(t)| >= 1
    ensures Split(w + t) == [w + Split(t)[0]] + Split(t)[1..]
  {
    if w != [] {
      var s := w + t;
      assert w[0] in w;
      assert s[0] == w[0] && s[1..] == w[1..] + t;
      SplitPrefix(w[1..], t);
      var rest := Split(s[1..]);
      assert rest[0] == w[1..] + Split(t)[0];
      assert rest[1..] == Split(t)[1..];
      assert Split(s) == [[s[0]] + rest[0]] + rest[1..];
      assert [w[0]] + (w[1..] + Split(t)[0]) == w + Split(t)[0];
    } else {
      assert w + t == t;
      assert w + Split(t)[0] == Split(t)[0];
      assert [w + Split(t)[0]] + Split(t)[1..] == Split(t);
    }
  }

  /** A space-free word followed by a space is one whole argument. */
  lemma SplitWordSpace(w: string, t: string)
    requires Space !in w
    ensures Split(w + [Space] + t) == [w] + Split(t)
  {
    var u := [Space] + t;
    assert u[1..] == t;
    assert Split(u) == [[]] + Split(t);
    SplitPrefix(w, u);
    assert w + [Space] + t == w + u;
    assert w + [] == w;
  }

  /** Ordinary flags split into one argument each. */
  lemma SplitFlagsExample()
    ensures Split("-x --flag value") == ["-x", "--flag", "value"]
  {
    var parts := ["-x", "--flag", "value"];
    assert SpaceFree(parts);
    assert Join(parts) == "-x --flag value";
    SplitJoin(parts);
  }

  /** The empty template gives one empty argument. */
  lemma SplitEmptyExample()
    ensures Split("") == [""]
  {
  }

  /** A doubled space gives an empty argument between its neighbours. */
  lemma SplitDoubledSpaceExample()
    ensures Split("a  b") == ["a", "", "b"]
  {
    var parts := ["a", "", "b"];
    assert SpaceFree(parts);
    assert Join(parts) == "a  b";
    SplitJoin(parts);
  }

  /** Quotes are ordinary characters: a quoted value with a space is cut in two. */
  lemma SplitQuotedExample()
    ensures Split("-x \"a b\"") == ["-x", "\"a", "b\""]
  {
    var parts := ["-x", "\"a", "b\""];
    assert SpaceFree(parts);
    assert Join(parts) == "-x \"a b\"";
    SplitJoin(parts);
  }
}
