/** String helpers with the semantics of the JavaScript built-ins the source
    calls: `startsWith`, `indexOf`, `split` with a string separator, `join`
    and `replace` with a global one-character pattern. */
module Text {
  import opened Wrappers

  predicate StartsWith(s: string, prefix: string) {
    |prefix| <= |s| && s[..|prefix|] == prefix
  }

  /** `sep` occurs in `s` at position `i`. */
  predicate OccursAt(s: string, sep: string, i: int) {
    0 <= i && i + |sep| <= |s| && s[i..i + |sep|] == sep
  }

  /** Position of the first occurrence of `sep` in `s`, or -1 when there is
      none (`String.prototype.indexOf`). */
  function IndexOf(s: string, sep: string): (r: int)
    ensures -1 <= r && (r >= 0 ==> r + |sep| <= |s|)
  {
    if |s| < |sep| then -1
    else if s[..|sep|] == sep then 0
    else var k := IndexOf(s[1..], sep); if k < 0 then -1 else k + 1
  }

  /** `IndexOf` reports an occurrence of `sep`. */
  lemma {:induction false} IndexOfOccurs(s: string, sep: string)
    ensures IndexOf(s, sep) >= 0 ==> OccursAt(s, sep, IndexOf(s, sep))
  {
    if |s| >= |sep| && s[..|sep|] != sep {
      IndexOfOccurs(s[1..], sep);
      var k := IndexOf(s[1..], sep);
      if k >= 0 {
        assert s[1..][k..k + |sep|] == s[k + 1..k + 1 + |sep|];
      }
    }
  }

  /** `IndexOf` finds the first occurrence, and reports none only when there is none. */
  lemma {:induction false} IndexOfFirst(s: string, sep: string)
    ensures forall j :: 0 <= j && (j < IndexOf(s, sep) || IndexOf(s, sep) < 0) ==> !OccursAt(s, sep, j)
  {
    if |s| >= |sep| && s[..|sep|] != sep {
      IndexOfFirst(s[1..], sep);
      forall j | 1 <= j && OccursAt(s, sep, j) ensures OccursAt(s[1..], sep, j - 1) {
        assert s[1..][j - 1..j - 1 + |sep|] == s[j..j + |sep|];
      }
    }
  }

  /** `s.split(sep)` for a non-empty separator: the pieces between the
      left-to-right, non-overlapping occurrences of `sep`. */
  function Split(s: string, sep: string): (parts: seq<string>)
    requires sep != []
    ensures |parts| >= 1
    decreases |s|
  {
    var k := IndexOf(s, sep);
    if k < 0 then [s] else [s[..k]] + Split(s[k + |sep|..], sep)
  }

  /** `parts.join(sep)`. */
  function Join(parts: seq<string>, sep: string): string {
    if |parts| == 0 then ""
    else if |parts| == 1 then parts[0]
    else parts[0] + sep + Join(parts[1..], sep)
  }

  /** One step of `Split` at a found separator. */
  lemma SplitFound(s: string, sep: string, k: nat)
    requires sep != [] && IndexOf(s, sep) == k
    ensures Split(s, sep) == [s[..k]] + Split(s[k + |sep|..], sep)
  {
  }

  lemma JoinCons(a: string, tail: seq<string>, sep: string)
    requires |tail| >= 1
    ensures Join([a] + tail, sep) == a + sep + Join(tail, sep)
  {
    assert ([a] + tail)[1..] == tail;
  }

  /** Splitting and joining again with the same separator gives back the string. */
  lemma {:induction false} JoinSplit(s: string, sep: string)
    requires sep != []
    ensures Join(Split(s, sep), sep) == s
    decreases |s|
  {
    var k := IndexOf(s, sep);
    if k >= 0 {
      var rest := s[k + |sep|..];
      SplitFound(s, sep, k);
      JoinSplit(rest, sep);
      JoinCons(s[..k], Split(rest, sep), sep);
      IndexOfOccurs(s, sep);
      assert s[k..k + |sep|] == sep;
      assert s == s[..k] + s[k..k + |sep|] + rest;
    }
  }

  /** The first occurrence of `sep` in `x + y` lies in `y` when `x` lacks `sep[0]`. */
  lemma {:induction false} IndexOfPastPrefix(x: string, y: string, sep: string)
    requires sep != [] && sep[0] !in x
    ensures IndexOf(x + y, sep) == if IndexOf(y, sep) < 0 then -1 else |x| + IndexOf(y, sep)
    decreases |x|
  {
    if x != [] {
      var s := x + y;
      assert s[1..] == x[1..] + y;
      IndexOfPastPrefix(x[1..], y, sep);
      if |s| >= |sep| {
        assert s[..|sep|][0] == x[0];
      }
    } else {
      assert x + y == y;
    }
  }

  /** A prefix free of the separator's first character joins the first piece. */
  lemma {:induction false} SplitPastPrefix(x: string, y: string, sep: string)
    requires sep != [] && sep[0] !in x
    ensures Split(x + y, sep) == [x + Split(y, sep)[0]] + Split(y, sep)[1..]
  {
    IndexOfPastPrefix(x, y, sep);
    var k := IndexOf(y, sep);
    if k >= 0 {
      SplitPastPrefixAt(x, y, sep, k);
    }
  }

  lemma SplitPastPrefixAt(x: string, y: string, sep: string, k: nat)
    requires sep != [] && IndexOf(y, sep) == k && IndexOf(x + y, sep) == |x| + k
    ensures Split(x + y, sep) == [x + Split(y, sep)[0]] + Split(y, sep)[1..]
  {
    var s := x + y;
    var rest := y[k + |sep|..];
    SplitFound(y, sep, k);
    assert s[..|x| + k] == x + y[..k];
    assert s[|x| + k + |sep|..] == rest;
    SplitFound(s, sep, |x| + k);
    SameTail(Split(s, sep), Split(y, sep), x, y[..k], Split(rest, sep));
  }

  /** Two lists of pieces with the same tail, whose heads differ by a prefix. */
  lemma SameTail(a: seq<string>, b: seq<string>, x: string, q: string, t: seq<string>)
    requires a == [x + q] + t && b == [q] + t
    ensures a == [x + b[0]] + b[1..]
  {
    assert b[1..] == t;
  }

  /** When the separator's first character is absent from `x`, the string
      `x + sep + y` splits into `x` followed by the pieces of `y`. */
  lemma {:induction false} SplitAtSeparator(x: string, y: string, sep: string)
    requires sep != [] && sep[0] !in x
    ensures Split(x + sep + y, sep) == [x] + Split(y, sep)
  {
    var s := x + (sep + y);
    assert x + sep + y == s;
    SplitPastPrefix(x, sep + y, sep);
    SplitLeadingSeparator(y, sep);
    EmptyHead(Split(s, sep), Split(sep + y, sep), x, Split(y, sep));
  }

  /** Pieces whose head is `x` followed by an empty piece. */
  lemma EmptyHead(a: seq<string>, b: seq<string>, x: string, t: seq<string>)
    requires b == [[]] + t && a == [x + b[0]] + b[1..]
    ensures a == [x] + t
  {
    assert b[1..] == t;
    assert x + b[0] == x;
  }

  /** A string that starts with the separator splits into an empty piece
      first. */
  lemma SplitLeadingSeparator(y: string, sep: string)
    requires sep != []
    ensures Split(sep + y, sep) == [[]] + Split(y, sep)
  {
    assert (sep + y)[..|sep|] == sep;
    assert IndexOf(sep + y, sep) == 0;
    assert (sep + y)[|sep|..] == y;
    SplitFound(sep + y, sep, 0);
  }

  /** A string without the separator's first character is a single piece. */
  lemma {:induction false} SplitWithout(x: string, sep: string)
    requires sep != [] && sep[0] !in x
    ensures Split(x, sep) == [x]
  {
    SplitPastPrefix(x, [], sep);
    assert x + [] == x;
  }

  /** The first piece is a prefix of the string; when there are more pieces,
      the separator follows it and the rest are the pieces of what comes after. */
  lemma SplitHead(s: string, sep: string)
    requires sep != []
    ensures StartsWith(s, Split(s, sep)[0])
    ensures |Split(s, sep)| >= 2 ==>
      && StartsWith(s, Split(s, sep)[0] + sep)
      && Split(s, sep)[1..] == Split(s[|Split(s, sep)[0]| + |sep|..], sep)
  {
    var k := IndexOf(s, sep);
    if k >= 0 {
      SplitFound(s, sep, k);
      IndexOfOccurs(s, sep);
      assert s[..k + |sep|] == s[..k] + sep;
    }
  }

  /** A prefix of a prefix is a prefix. */
  lemma StartsWithTrans(a: string, b: string, c: string)
    requires StartsWith(a, b) && StartsWith(b, c)
    ensures StartsWith(a, c)
  {
    assert a[..|c|] == b[..|c|];
  }

  /** Prefixes chain: `p` then `q` after it. */
  lemma StartsWithConcat(a: string, p: string, q: string)
    requires StartsWith(a, p) && StartsWith(a[|p|..], q)
    ensures StartsWith(a, p + q)
  {
    assert a[..|p| + |q|] == a[..|p|] + a[|p|..][..|q|];
  }

  /** `s.replace(/c/g, repl)`: every occurrence of `c` replaced by `repl`. */
  function ReplaceAll(s: string, c: char, repl: string): (r: string)
    ensures c !in repl ==> c !in r
    ensures (forall k :: 0 <= k < |s| ==> s[k] != c) ==> r == s
  {
    if s == [] then []
    else (if s[0] == c then repl else [s[0]]) + ReplaceAll(s[1..], c, repl)
  }

  /** Replacing a character by one character keeps the length and changes
      exactly the positions holding it. */
  lemma {:induction false} ReplaceAllChar(s: string, c: char, d: char)
    ensures |ReplaceAll(s, c, [d])| == |s|
    ensures forall k :: 0 <= k < |s| ==> ReplaceAll(s, c, [d])[k] == if s[k] == c then d else s[k]
    decreases |s|
  {
    if s != [] {
      ReplaceAllChar(s[1..], c, d);
      var r := ReplaceAll(s, c, [d]);
      var tail := ReplaceAll(s[1..], c, [d]);
      assert r == [if s[0] == c then d else s[0]] + tail;
      forall k | 1 <= k < |s|
        ensures r[k] == if s[k] == c then d else s[k]
      {
        assert r[k] == tail[k - 1] && s[k] == s[1..][k - 1];
      }
    }
  }

  lemma {:induction false} ReplaceAllAppend(a: string, b: string, c: char, repl: string)
    ensures ReplaceAll(a + b, c, repl) == ReplaceAll(a, c, repl) + ReplaceAll(b, c, repl)
    decreases |a|
  {
    if a == [] {
      assert a + b == b;
    } else {
      assert (a + b)[1..] == a[1..] + b;
      ReplaceAllAppend(a[1..], b, c, repl);
    }
  }
}
