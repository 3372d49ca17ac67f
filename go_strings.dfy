/**
  The few functions of Go's `strings` package that the changelog tool relies on,
  over strings as sequences of characters.

  Every `strings.Split` call of the tool uses a one-character separator
  ("/", ":" or "\n"), so Split is modelled for a `char` separator; Join and Count
  are its reference partners.
 */
module GoStrings {

  /** `strings.HasPrefix(s, prefix)` */
  predicate HasPrefix(s: string, prefix: string): (b: bool)
    ensures b <==> prefix <= s
  {
    |prefix| <= |s| && s[..|prefix|] == prefix
  }

  /** `strings.HasSuffix(s, suffix)` */
  predicate HasSuffix(s: string, suffix: string) {
    |suffix| <= |s| && s[|s| - |suffix|..] == suffix
  }

  /** `strings.TrimPrefix(s, prefix)`: removes one leading `prefix`, if there is one. */
  function TrimPrefix(s: string, prefix: string): (r: string)
    ensures HasPrefix(s, prefix) ==> prefix + r == s
    ensures !HasPrefix(s, prefix) ==> r == s
  {
    if HasPrefix(s, prefix) then s[|prefix|..] else s
  }

  /** `strings.TrimSuffix(s, suffix)`: removes one trailing `suffix`, if there is one. */
  function TrimSuffix(s: string, suffix: string): (r: string)
    ensures HasSuffix(s, suffix) ==> r + suffix == s
    ensures !HasSuffix(s, suffix) ==> r == s
  {
    if HasSuffix(s, suffix) then s[..|s| - |suffix|] else s
  }

  /** Number of occurrences of `c` in `s`. */
  function Count(s: string, c: char): (n: nat)
    ensures n == 0 <==> c !in s
    ensures n <= |s|
  {
    if s == [] then 0
    else
      assert s == [s[0]] + s[1..];
      (if s[0] == c then 1 else 0) + Count(s[1..], c)
  }

  /**
    `strings.Split(s, string(sep))`: the pieces of `s` between the occurrences
    of `sep`, one more piece than there are separators; an empty `s` yields one
    empty piece.
   */
  function Split(s: string, sep: char): (parts: seq<string>)
    ensures |parts| == Count(s, sep) + 1
    ensures forall i :: 0 <= i < |parts| ==> sep !in parts[i]
    ensures parts[0] <= s
    ensures |parts[0]| < |s| ==> s[|parts[0]|] == sep
  {
    if s == [] then [[]]
    else
      var rest := Split(s[1..], sep);
      if s[0] == sep then [[]] + rest
      else [[s[0]] + rest[0]] + rest[1..]
  }

  /** `strings.Join(parts, string(sep))`, the inverse of Split. */
  function Join(parts: seq<string>, sep: char): string {
    if parts == [] then []
    else if |parts| == 1 then parts[0]
    else parts[0] + [sep] + Join(parts[1..], sep)
  }

  /** Joining a piece in front of at least one more. */
  lemma JoinCons(x: string, parts: seq<string>, sep: char)
    requires |parts| >= 1
    ensures Join([x] + parts, sep) == x + [sep] + Join(parts, sep)
  {
    assert ([x] + parts)[1..] == parts;
  }

  /** No separator: the whole string is the only piece. */
  lemma {:induction false} SplitNoSep(s: string, sep: char)
    requires sep !in s
    ensures Split(s, sep) == [s]
  {
    if s != [] {
      SplitNoSep(s[1..], sep);
      assert s == [s[0]] + s[1..];
    }
  }

  /** A separator after a separator-free head cuts the head off as the first piece. */
  lemma {:induction false} SplitAppend(a: string, sep: char, b: string)
    requires sep !in a
    ensures Split(a + [sep] + b, sep) == [a] + Split(b, sep)
  {
    var s := a + [sep] + b;
    if a == [] {
      assert s[0] == sep && s[1..] == b;
    } else {
      assert s[0] == a[0] && s[1..] == a[1..] + [sep] + b;
      SplitAppend(a[1..], sep, b);
      assert [a[0]] + a[1..] == a;
    }
  }

  /** A separator-free head followed by nothing or by a separator is the first piece. */
  lemma SplitHead(a: string, sep: char, tail: string)
    requires sep !in a
    requires tail == [] || tail[0] == sep
    ensures Split(a + tail, sep)[0] == a
  {
    if tail == [] {
      assert a + tail == a;
      SplitNoSep(a, sep);
    } else {
      assert a + tail == a + [sep] + tail[1..];
      SplitAppend(a, sep, tail[1..]);
    }
  }

  /** The first two pieces of `a sep b tail`, with `tail` empty or starting at a separator. */
  lemma SplitPair(a: string, sep: char, b: string, tail: string)
    requires sep !in a && sep !in b
    requires tail == [] || tail[0] == sep
    ensures var parts := Split(a + [sep] + b + tail, sep);
            |parts| >= 2 && parts[0] == a && parts[1] == b
  {
    assert a + [sep] + b + tail == a + [sep] + (b + tail);
    SplitAppend(a, sep, b + tail);
    SplitHead(b, sep, tail);
  }

  /** Extending the first piece extends the join by the same characters. */
  lemma JoinExtendHead(c: char, parts: seq<string>, sep: char)
    requires |parts| >= 1
    ensures Join([[c] + parts[0]] + parts[1..], sep) == [c] + Join(parts, sep)
  {
    var ext := [[c] + parts[0]] + parts[1..];
    if |parts| > 1 {
      assert ext[1..] == parts[1..];
    }
  }

  /** Joining the pieces back with the separator gives the original string. */
  lemma {:induction false} SplitJoin(s: string, sep: char)
    ensures Join(Split(s, sep), sep) == s
  {
    if s != [] {
      var rest := Split(s[1..], sep);
      SplitJoin(s[1..], sep);
      assert s == [s[0]] + s[1..];
      if s[0] == sep {
        assert ([[]] + rest)[1..] == rest;
      } else {
        JoinExtendHead(s[0], rest, sep);
      }
    }
  }

  /**
    Split is the only way of cutting `s` into separator-free pieces whose join is `s`:
    any such decomposition is exactly Split's.
   */
  lemma {:induction false} SplitUnique(parts: seq<string>, sep: char, s: string)
    requires |parts| >= 1
    requires forall i :: 0 <= i < |parts| ==> sep !in parts[i]
    requires Join(parts, sep) == s
    ensures Split(s, sep) == parts
  {
    if |parts| == 1 {
      SplitNoSep(s, sep);
    } else {
      var tail := Join(parts[1..], sep);
      assert forall i :: 0 <= i < |parts| - 1 ==> parts[1..][i] == parts[i + 1];
      SplitUnique(parts[1..], sep, tail);
      SplitAppend(parts[0], sep, tail);
      assert [parts[0]] + parts[1..] == parts;
    }
  }

  /** Trimming a suffix that was just appended gives back the original: `.git` goes at most once. */
  lemma TrimSuffixAppended(s: string, suffix: string)
    ensures TrimSuffix(s + suffix, suffix) == s
  {
    assert (s + suffix)[|s|..] == suffix;
  }
}
