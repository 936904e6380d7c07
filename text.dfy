/**
  The string operations the backend and the frontend use: prefix and suffix tests, Python's
  `in`, `find`, `split`, `replace` and `join`, and the truthiness of an optional string.
*/
module Text {
  import opened Wrappers

  predicate StartsWith(s: string, prefix: string) {
    |prefix| <= |s| && s[..|prefix|] == prefix
  }

  predicate EndsWith(s: string, suffix: string) {
    |suffix| <= |s| && s[|s| - |suffix|..] == suffix
  }

  /** `sub` occurs in `s` at index `i`. */
  predicate OccursAt(s: string, sub: string, i: int) {
    0 <= i && i + |sub| <= |s| && s[i..i + |sub|] == sub
  }

  /** Python's `sub in s`. */
  predicate Contains(s: string, sub: string) {
    exists i | 0 <= i <= |s| - |sub| :: OccursAt(s, sub, i)
  }

  /** Python's `s.find(sub, from)`: the first index at or after `from` where `sub` occurs. */
  function Find(s: string, sub: string, from: nat): (r: Option<nat>)
    requires |sub| > 0
    ensures r.Some? ==> from <= r.value <= |s| - |sub|
    decreases |s| - from
  {
    if from + |sub| > |s| then None
    else if OccursAt(s, sub, from) then Some(from)
    else Find(s, sub, from + 1)
  }

  /** `Find` returns an occurrence, and no earlier one is skipped; `None` means there is none. */
  lemma {:induction false} FindIsFirst(s: string, sub: string, from: nat)
    requires |sub| > 0
    ensures Find(s, sub, from).Some? ==> OccursAt(s, sub, Find(s, sub, from).value)
    ensures forall j | from <= j && (Find(s, sub, from).None? || j < Find(s, sub, from).value) ::
              !OccursAt(s, sub, j)
    decreases |s| - from
  {
    if from + |sub| <= |s| && !OccursAt(s, sub, from) {
      FindIsFirst(s, sub, from + 1);
    }
  }

  /** What `Find` returns is an occurrence. */
  lemma FindOccurs(s: string, sub: string, from: nat)
    requires |sub| > 0 && Find(s, sub, from).Some?
    ensures OccursAt(s, sub, Find(s, sub, from).value)
  {
    FindIsFirst(s, sub, from);
  }

  /** An occurrence with none before it is the one `Find` returns. */
  lemma FindFirstOccurrence(s: string, sub: string, k: nat)
    requires |sub| > 0 && OccursAt(s, sub, k)
    requires forall j | 0 <= j < k :: !OccursAt(s, sub, j)
    ensures Find(s, sub, 0) == Some(k)
  {
    FindIsFirst(s, sub, 0);
  }

  /** `Find` from the start succeeds exactly when `sub` occurs somewhere. */
  lemma FindContains(s: string, sub: string)
    requires |sub| > 0
    ensures Find(s, sub, 0).Some? <==> Contains(s, sub)
  {
    FindIsFirst(s, sub, 0);
    if Contains(s, sub) {
      var i :| 0 <= i <= |s| - |sub| && OccursAt(s, sub, i);
    }
  }

  /**
    The last element of Python's `s.split(sep)`: the string is cut at every occurrence of `sep`,
    found left to right without overlapping, and the text after the final cut is kept.
  */
  function LastPiece(s: string, sep: string): string
    requires |sep| > 0
    decreases |s|
  {
    var found := Find(s, sep, 0);
    if found.None? then s else LastPiece(s[found.value + |sep|..], sep)
  }

  /** The last piece is a suffix of the string. */
  lemma {:induction false} LastPieceIsSuffix(s: string, sep: string)
    requires |sep| > 0
    ensures EndsWith(s, LastPiece(s, sep))
    decreases |s|
  {
    var found := Find(s, sep, 0);
    if found.Some? {
      var rest := s[found.value + |sep|..];
      LastPieceIsSuffix(rest, sep);
      LastPieceUnfold(s, sep);
      EndsWithTransitive(s, rest, LastPiece(rest, sep));
    }
  }

  /** The last piece never contains the separator. */
  lemma {:induction false} LastPieceHasNoSeparator(s: string, sep: string)
    requires |sep| > 0
    ensures !Contains(LastPiece(s, sep), sep)
    decreases |s|
  {
    if Find(s, sep, 0).None? {
      FindContains(s, sep);
    } else {
      var i := Find(s, sep, 0).value;
      LastPieceHasNoSeparator(s[i + |sep|..], sep);
      LastPieceUnfold(s, sep);
    }
  }

  /** When the separator occurs, the string ends with the separator followed by the last piece. */
  lemma LastPieceFollowsSeparator(s: string, sep: string)
    requires |sep| > 0 && Contains(s, sep)
    ensures EndsWith(s, sep + LastPiece(s, sep))
  {
    FindContains(s, sep);
    LastPieceAfterFound(s, sep);
  }

  lemma {:induction false} LastPieceAfterFound(s: string, sep: string)
    requires |sep| > 0 && Find(s, sep, 0).Some?
    ensures EndsWith(s, sep + LastPiece(s, sep))
    decreases |s|
  {
    var i := Find(s, sep, 0).value;
    var rest := s[i + |sep|..];
    if Find(rest, sep, 0).Some? {
      LastPieceAfterFound(rest, sep);
      SuffixOfSuffix(s, i + |sep|, |rest|);
      EndsWithTransitive(s, rest, sep + LastPiece(rest, sep));
      LastPieceUnfold(s, sep);
    } else {
      LastPieceAtFinalSeparator(s, sep, i);
    }
  }

  /** One step of `split`: after the first separator the search goes on in the rest. */
  lemma LastPieceUnfold(s: string, sep: string)
    requires |sep| > 0 && Find(s, sep, 0).Some?
    ensures LastPiece(s, sep) == LastPiece(s[Find(s, sep, 0).value + |sep|..], sep)
  {}

  /** The separator found at `i` is the last one: what follows it is the last piece. */
  lemma LastPieceAtFinalSeparator(s: string, sep: string, i: nat)
    requires |sep| > 0 && Find(s, sep, 0) == Some(i)
    requires Find(s[i + |sep|..], sep, 0).None?
    ensures EndsWith(s, sep + LastPiece(s, sep))
  {
    var rest := s[i + |sep|..];
    FindOccurs(s, sep, 0);
    LastPieceUnfold(s, sep);
    assert LastPiece(rest, sep) == rest;
    SeparatorThenRest(s, sep, i);
  }

  lemma SeparatorThenRest(s: string, sep: string, i: nat)
    requires OccursAt(s, sep, i)
    ensures EndsWith(s, sep + s[i + |sep|..])
  {
    assert s[i..] == s[i..i + |sep|] + s[i + |sep|..];
  }

  /** A suffix of a suffix is a suffix. */
  lemma SuffixOfSuffix(s: string, j: nat, k: nat)
    requires j <= |s| && k <= |s| - j
    ensures s[j..][|s| - j - k..] == s[|s| - k..]
  {}

  /** A suffix of a suffix is a suffix: `EndsWith` is transitive. */
  lemma EndsWithTransitive(s: string, t: string, u: string)
    requires EndsWith(s, t) && EndsWith(t, u)
    ensures EndsWith(s, u)
  {
    assert t == s[|s| - |t|..];
    SuffixOfSuffix(s, |s| - |t|, |u|);
  }

  /** Without the separator, `split` leaves the string whole. */
  lemma LastPieceWithoutSeparator(s: string, sep: string)
    requires |sep| > 0 && !Contains(s, sep)
    ensures LastPiece(s, sep) == s
  {
    FindContains(s, sep);
  }

  /** Python's `s.replace(c, rep)` for a one-character pattern: every occurrence is replaced. */
  function ReplaceChar(s: string, c: char, rep: string): (r: string)
    ensures c !in rep ==> c !in r
  {
    if s == [] then [] else (if s[0] == c then rep else [s[0]]) + ReplaceChar(s[1..], c, rep)
  }

  /** Replacing works piece by piece. */
  lemma {:induction false} ReplaceCharAppend(a: string, b: string, c: char, rep: string)
    ensures ReplaceChar(a + b, c, rep) == ReplaceChar(a, c, rep) + ReplaceChar(b, c, rep)
  {
    if a == [] {
      assert a + b == b;
    } else {
      assert (a + b)[0] == a[0] && (a + b)[1..] == a[1..] + b;
      ReplaceCharAppend(a[1..], b, c, rep);
    }
  }

  /** A string without the pattern is left as it is. */
  lemma {:induction false} ReplaceCharAbsent(s: string, c: char, rep: string)
    requires c !in s
    ensures ReplaceChar(s, c, rep) == s
  {
    if s != [] {
      assert c !in s[1..];
      ReplaceCharAbsent(s[1..], c, rep);
    }
  }

  /** Python's `s.split(c)` for a one-character separator. */
  function Split(s: string, c: char): (parts: seq<string>)
    ensures |parts| >= 1
    ensures forall i | 0 <= i < |parts| :: c !in parts[i]
  {
    if s == [] then [""]
    else
      var rest := Split(s[1..], c);
      if s[0] == c then [""] + rest else [[s[0]] + rest[0]] + rest[1..]
  }

  /** Python's `sep.join(parts)`. */
  function Join(parts: seq<string>, sep: string): string {
    if parts == [] then ""
    else if |parts| == 1 then parts[0]
    else parts[0] + sep + Join(parts[1..], sep)
  }

  /** Splitting at the first separator: the text before it is the first part. */
  lemma {:induction false} SplitAtFirst(a: string, b: string, c: char)
    requires c !in a
    ensures Split(a + [c] + b, c) == [a] + Split(b, c)
  {
    var s := a + [c] + b;
    if a == [] {
      assert s[0] == c && s[1..] == b;
    } else {
      assert s[0] == a[0] && s[1..] == a[1..] + [c] + b;
      SplitAtFirst(a[1..], b, c);
      assert [a[0]] + a[1..] == a;
    }
  }

  /** A string without the separator splits into itself. */
  lemma {:induction false} SplitWithoutSeparator(a: string, c: char)
    requires c !in a
    ensures Split(a, c) == [a]
  {
    if a != [] {
      SplitWithoutSeparator(a[1..], c);
      assert [a[0]] + a[1..] == a;
    }
  }

  /** Two words joined by the separator split back into the two. */
  lemma SplitTwoWords(a: string, b: string, c: char)
    requires c !in a && c !in b
    ensures Split(a + [c] + b, c) == [a, b]
  {
    SplitAtFirst(a, b, c);
    SplitWithoutSeparator(b, c);
  }

  /** Three words joined by the separator split back into the three. */
  lemma SplitThreeWords(a: string, b: string, d: string, c: char)
    requires c !in a && c !in b && c !in d
    ensures Split(a + [c] + b + [c] + d, c) == [a, b, d]
  {
    assert a + [c] + b + [c] + d == a + [c] + (b + [c] + d);
    SplitAtFirst(a, b + [c] + d, c);
    SplitTwoWords(b, d, c);
  }

  /** Splitting undoes joining when no part holds the separator. */
  lemma {:induction false} SplitJoin(parts: seq<string>, c: char)
    requires |parts| >= 1
    requires forall i | 0 <= i < |parts| :: c !in parts[i]
    ensures Split(Join(parts, [c]), c) == parts
  {
    if |parts| == 1 {
      SplitWithoutSeparator(parts[0], c);
    } else {
      SplitJoin(parts[1..], c);
      SplitAtFirst(parts[0], Join(parts[1..], [c]), c);
    }
  }

  lemma JoinThree(parts: seq<string>, sep: string)
    requires |parts| == 3
    ensures Join(parts, sep) == parts[0] + sep + parts[1] + sep + parts[2]
  {
    assert parts[1..][1..] == [parts[2]];
    assert Join(parts[1..], sep) == parts[1] + sep + parts[2];
  }

  /** Python truthiness of an optional string: present and non-empty. */
  predicate Truthy(s: Option<string>) {
    s.Some? && s.value != ""
  }

  /** Python's `a or b` on optional strings. */
  function Or(a: Option<string>, b: Option<string>): Option<string> {
    if Truthy(a) then a else b
  }
}
