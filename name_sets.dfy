/**
 * The name helpers the reconciliation engine calls: Split(name, '/') gives the set of the
 * parts of a merged name (a std::set<std::wstring>, so deduplicated and in increasing order),
 * and Merge(set, '/') joins such a set back into one name. Their own source is not part of
 * this model; the definitions below are the behaviour the engine relies on.
 */
module NameSets {
  import opened StringOrder

  /** The pieces of s between separators, left to right; a string with no separator is one piece. */
  function Tokens(s: string, sep: char): (r: seq<string>)
    ensures |r| >= 1
    ensures forall i :: 0 <= i < |r| ==> sep !in r[i]
  {
    if |s| == 0 then [""]
    else
      var rest := Tokens(s[1..], sep);
      if s[0] == sep then [""] + rest
      else [[s[0]] + rest[0]] + rest[1..]
  }

  /** Inserts every piece into an initially empty set. */
  function ToSet(parts: seq<string>): (r: seq<string>)
    ensures Sorted(r)
    ensures forall x :: x in r <==> x in parts
  {
    if |parts| == 0 then []
    else
      var init := parts[..|parts| - 1];
      assert parts == init + [parts[|parts| - 1]];
      Insert(ToSet(init), parts[|parts| - 1])
  }

  /** Split(s, sep): the set of the pieces of s. */
  function Split(s: string, sep: char): (r: seq<string>)
  {
    ToSet(Tokens(s, sep))
  }

  /** Merge(set, sep): the elements of the set in iteration order, joined by sep. */
  function Merge(parts: seq<string>, sep: char): string
  {
    if |parts| == 0 then ""
    else if |parts| == 1 then parts[0]
    else parts[0] + [sep] + Merge(parts[1..], sep)
  }

  lemma {:induction false} TokensOfAtom(p: string, sep: char)
    requires sep !in p
    ensures Tokens(p, sep) == [p]
  {
    if |p| > 0 {
      TokensOfAtom(p[1..], sep);
      assert p == [p[0]] + p[1..];
    }
  }

  lemma {:induction false} TokensOfPrefix(p: string, sep: char, rest: string)
    requires sep !in p
    ensures Tokens(p + [sep] + rest, sep) == [p] + Tokens(rest, sep)
  {
    var s := p + [sep] + rest;
    if |p| == 0 {
      assert s[1..] == rest;
    } else {
      assert s[1..] == p[1..] + [sep] + rest;
      TokensOfPrefix(p[1..], sep, rest);
      assert p == [p[0]] + p[1..];
    }
  }

  /** Splitting a joined list of separator-free pieces gives the pieces back. */
  lemma {:induction false} TokensOfMerge(parts: seq<string>, sep: char)
    requires |parts| >= 1
    requires forall i :: 0 <= i < |parts| ==> sep !in parts[i]
    ensures Tokens(Merge(parts, sep), sep) == parts
  {
    if |parts| == 1 {
      TokensOfAtom(parts[0], sep);
    } else {
      TokensOfMerge(parts[1..], sep);
      TokensOfPrefix(parts[0], sep, Merge(parts[1..], sep));
      assert parts == [parts[0]] + parts[1..];
    }
  }

  /** A set of separator-free names survives Merge followed by Split. */
  lemma SplitOfMerge(ns: seq<string>, sep: char)
    requires Sorted(ns) && |ns| >= 1
    requires forall i :: 0 <= i < |ns| ==> sep !in ns[i]
    ensures Split(Merge(ns, sep), sep) == ns
  {
    TokensOfMerge(ns, sep);
    SortedUnique(ToSet(ns), ns);
  }

  /** A name without a separator splits into the one-element set holding it. */
  lemma SplitOfAtom(p: string, sep: char)
    requires sep !in p
    ensures Split(p, sep) == [p]
  {
    TokensOfAtom(p, sep);
    assert ToSet([p]) == Insert([], p);
  }

  /**
   * The name parts of name, with part inserted, joined again: what merging an endpoint's name into
   * a record's name gives. A part without a separator reappears as one more element of the set,
   * and the result is the separator-join of that set: each part once, in increasing order.
   */
  function WithPart(name: string, part: string, sep: char): (r: string)
    ensures sep !in part ==> forall p :: p in Split(r, sep) <==> p in Split(name, sep) || p == part
    ensures sep !in part ==> Tokens(r, sep) == Insert(Split(name, sep), part)
  {
    var parts := Insert(Split(name, sep), part);
    if sep !in part then
      forall i | 0 <= i < |parts|
        ensures sep !in parts[i]
      {
        if parts[i] != part {
          var tokens := Tokens(name, sep);
          assert parts[i] in Split(name, sep);
          assert parts[i] in tokens;
          var j :| 0 <= j < |tokens| && tokens[j] == parts[i];
        }
      }
      TokensOfMerge(parts, sep);
      SplitOfMerge(parts, sep);
      Merge(parts, sep)
    else
      Merge(parts, sep)
  }

  /** The parts of a merged name are the stored parts with the incoming name inserted. */
  lemma SplitOfWithPart(name: string, part: string, sep: char)
    requires sep !in part
    ensures Split(WithPart(name, part, sep), sep) == Insert(Split(name, sep), part)
  {
    SortedUnique(Split(WithPart(name, part, sep), sep), Insert(Split(name, sep), part));
  }
}
