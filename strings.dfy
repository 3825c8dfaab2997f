/** ASCII models of the string operations the application relies on:
    lower-casing (`toLowerCase`, `str.lower`), whitespace trimming (`trim`, `strip`),
    substring search (`includes`, `in`), single-character replacement and splitting
    on a one-character delimiter (`split`). Non-ASCII characters are left unchanged
    by lower-casing and are never whitespace. */
module Strings {
  import opened Sequences

  // ---------------------------------------------------------------- characters

  predicate IsSpace(c: char) {
    c == ' ' || c == '\t' || c == '\n' || c == '\r' || c == '\U{B}' || c == '\U{C}'
  }

  function LowerChar(c: char): (r: char)
    ensures 'A' <= c <= 'Z' ==> 'a' <= r <= 'z' && r as int == c as int - 'A' as int + 'a' as int
    ensures !('A' <= c <= 'Z') ==> r == c
  {
    if 'A' <= c <= 'Z' then (c as int - 'A' as int + 'a' as int) as char else c
  }

  function Lower(s: string): (r: string)
    ensures |r| == |s|
    ensures forall i :: 0 <= i < |s| ==> r[i] == LowerChar(s[i])
  {
    seq(|s|, i requires 0 <= i < |s| => LowerChar(s[i]))
  }

  /** Lower-casing commutes with taking a slice. */
  lemma LowerSlice(s: string, i: int, j: int)
    requires 0 <= i <= j <= |s|
    ensures Lower(s[i..j]) == Lower(s)[i..j]
  {
  }

  /** Lower-casing is idempotent. */
  lemma LowerIdempotent(s: string)
    ensures Lower(Lower(s)) == Lower(s)
  {
  }

  // ---------------------------------------------------------------- blank strings and trimming

  /** True when `trim()` of `s` is the empty string. */
  predicate IsBlank(s: string) {
    forall i :: 0 <= i < |s| ==> IsSpace(s[i])
  }

  /** Lower-casing neither creates nor removes whitespace. */
  lemma LowerBlank(s: string)
    ensures IsBlank(Lower(s)) <==> IsBlank(s)
  {
    assert forall i :: 0 <= i < |s| ==> (IsSpace(Lower(s)[i]) <==> IsSpace(s[i]));
  }

  /** The number of whitespace characters at the start of `s`. */
  function LeadingSpaces(s: string): (n: nat)
    ensures n <= |s|
    ensures forall k :: 0 <= k < n ==> IsSpace(s[k])
    ensures n < |s| ==> !IsSpace(s[n])
    decreases |s|
  {
    if s != [] && IsSpace(s[0]) then LeadingSpaces(s[1..]) + 1 else 0
  }

  /** The number of whitespace characters at the end of `s`. */
  function TrailingSpaces(s: string): (n: nat)
    ensures n <= |s|
    ensures forall k :: |s| - n <= k < |s| ==> IsSpace(s[k])
    ensures n < |s| ==> !IsSpace(s[|s| - n - 1])
    decreases |s|
  {
    if s != [] && IsSpace(s[|s| - 1]) then TrailingSpaces(s[..|s| - 1]) + 1 else 0
  }

  /** Removal of leading and trailing whitespace (`trim` / `strip`). A blank string has
      only leading whitespace and trims to the empty string. The result neither starts
      nor ends with whitespace. */
  function Trim(s: string): (r: string)
    ensures |r| <= |s|
    ensures r != [] ==> !IsSpace(r[0]) && !IsSpace(r[|r| - 1])
  {
    var i := LeadingSpaces(s);
    var j := |s| - TrailingSpaces(s);
    if j <= i then [] else s[i..j]
  }

  /** `Trim(s)` is the slice `s[i..j]`, and everything it drops is whitespace. */
  lemma TrimIsSlice(s: string) returns (i: nat, j: nat)
    ensures i <= j <= |s| && Trim(s) == s[i..j] && IsBlank(s[..i]) && IsBlank(s[j..])
  {
    i := LeadingSpaces(s);
    j := |s| - TrailingSpaces(s);
    if j <= i {
      j := i;
    }
  }

  /** The trim of a string is empty exactly when the string is blank. */
  lemma TrimEmptyIffBlank(s: string)
    ensures Trim(s) == [] <==> IsBlank(s)
  {
    var i := LeadingSpaces(s);
    if Trim(s) != [] {
      assert !IsSpace(s[i]);
    }
  }

  /** Trimming a trimmed string changes nothing (the items of the menu splitter are "stripped"). */
  lemma TrimIdempotent(s: string)
    ensures Trim(Trim(s)) == Trim(s)
  {
    var r := Trim(s);
    if r != [] {
      assert LeadingSpaces(r) == 0;
      assert TrailingSpaces(r) == 0;
      assert r[0..|r|] == r;
    }
  }

  /** Every character of `Trim(s)` is a character of `s`. */
  lemma TrimChars(s: string, c: char)
    requires c in Trim(s)
    ensures c in s
  {
  }

  // ---------------------------------------------------------------- substrings

  predicate IsPrefix(p: string, s: string) {
    |p| <= |s| && s[..|p|] == p
  }

  /** `sub` occurs in `s` starting at index `i`. */
  predicate OccursAt(s: string, sub: string, i: int) {
    0 <= i && i + |sub| <= |s| && s[i..i + |sub|] == sub
  }

  /** Substring test (`s.includes(sub)`, `sub in s`). */
  predicate Contains(s: string, sub: string)
    decreases |s|
  {
    IsPrefix(sub, s) || (s != [] && Contains(s[1..], sub))
  }

  lemma OccursAtStart(s: string, sub: string)
    ensures OccursAt(s, sub, 0) <==> IsPrefix(sub, s)
  {
    if |sub| <= |s| {
      assert s[0..|sub|] == s[..|sub|];
    }
  }

  lemma {:induction false} ContainsIffOccurs(s: string, sub: string)
    ensures Contains(s, sub) <==> exists i :: OccursAt(s, sub, i)
    decreases |s|
  {
    OccursAtStart(s, sub);
    if IsPrefix(sub, s) {
    } else if s != [] {
      ContainsIffOccurs(s[1..], sub);
      if Contains(s[1..], sub) {
        var i :| OccursAt(s[1..], sub, i);
        assert s[i + 1..i + 1 + |sub|] == s[1..][i..i + |sub|];
        assert OccursAt(s, sub, i + 1);
      } else {
        forall i | OccursAt(s, sub, i) ensures false {
          assert s[1..][i - 1..i - 1 + |sub|] == s[i..i + |sub|];
          assert OccursAt(s[1..], sub, i - 1);
        }
      }
    }
  }

  lemma ContainsSelf(s: string)
    ensures Contains(s, s)
  {
    assert IsPrefix(s, s);
  }

  /** Substring containment is transitive. */
  lemma ContainsTransitive(s: string, b: string, a: string)
    requires Contains(s, b) && Contains(b, a)
    ensures Contains(s, a)
  {
    ContainsIffOccurs(s, b);
    ContainsIffOccurs(b, a);
    ContainsIffOccurs(s, a);
    var i :| OccursAt(s, b, i);
    var j :| OccursAt(b, a, j);
    forall k | 0 <= k < |a| ensures s[i + j + k] == a[k] {
      assert a[k] == b[j..j + |a|][k] == b[j + k];
      assert b[j + k] == s[i..i + |b|][j + k];
    }
    assert s[i + j..i + j + |a|] == a;
    assert OccursAt(s, a, i + j);
  }

  /** If `b` contains `a`, the lower-cased `b` contains the lower-cased `a`. */
  lemma ContainsLower(b: string, a: string)
    requires Contains(b, a)
    ensures Contains(Lower(b), Lower(a))
  {
    ContainsIffOccurs(b, a);
    ContainsIffOccurs(Lower(b), Lower(a));
    var j :| OccursAt(b, a, j);
    LowerSlice(b, j, j + |a|);
    assert OccursAt(Lower(b), Lower(a), j);
  }

  // ---------------------------------------------------------------- replacement

  /** Every occurrence of `from` replaced by `to` (`replace`). */
  function ReplaceChar(s: string, from: char, to: char): (r: string)
    ensures |r| == |s|
    ensures forall i :: 0 <= i < |s| ==> r[i] == (if s[i] == from then to else s[i])
  {
    seq(|s|, i requires 0 <= i < |s| => if s[i] == from then to else s[i])
  }

  lemma ReplaceCharConcat(a: string, b: string, from: char, to: char)
    ensures ReplaceChar(a + b, from, to) == ReplaceChar(a, from, to) + ReplaceChar(b, from, to)
  {
  }

  // ---------------------------------------------------------------- splitting

  /** Index of the first occurrence of `d` in `s`. */
  function FirstIndex(s: string, d: char): (i: nat)
    requires d in s
    ensures i < |s| && s[i] == d && d !in s[..i]
  {
    if s[0] == d then 0 else
      var k := FirstIndex(s[1..], d);
      assert s[..k + 1] == [s[0]] + s[1..][..k];
      k + 1
  }

  /** The first occurrence is the only index holding `d` with no `d` before it. */
  lemma FirstIndexAt(s: string, d: char, i: nat)
    requires i < |s| && s[i] == d && d !in s[..i]
    ensures FirstIndex(s, d) == i
  {
  }

  /** `s.split(d)`: the pieces between the occurrences of `d`. */
  function Split(s: string, d: char): (r: seq<string>)
    ensures |r| >= 1
    decreases |s|
  {
    if d !in s then [s]
    else
      var i := FirstIndex(s, d);
      [s[..i]] + Split(s[i + 1..], d)
  }

  /** Glues pieces back together with `d` between them (`join`). */
  function Join(pieces: seq<string>, d: char): string
  {
    if |pieces| == 0 then ""
    else if |pieces| == 1 then pieces[0]
    else pieces[0] + [d] + Join(pieces[1..], d)
  }

  /** Splitting and joining again gives back the string. */
  lemma {:induction false} JoinSplit(s: string, d: char)
    ensures Join(Split(s, d), d) == s
    decreases |s|
  {
    if d in s {
      var i := FirstIndex(s, d);
      var rest := Split(s[i + 1..], d);
      JoinSplit(s[i + 1..], d);
      ConsParts(s[..i], rest);
      assert Join([s[..i]] + rest, d) == s[..i] + [d] + Join(rest, d);
      assert s == s[..i] + [d] + s[i + 1..];
    }
  }

  /** No piece contains the delimiter, and every character of a piece comes from `s`. */
  lemma {:induction false} SplitPieces(s: string, d: char)
    ensures forall k :: 0 <= k < |Split(s, d)| ==> d !in Split(s, d)[k]
    ensures forall k, c :: 0 <= k < |Split(s, d)| && c in Split(s, d)[k] ==> c in s
    decreases |s|
  {
    if d in s {
      var i := FirstIndex(s, d);
      SplitPieces(s[i + 1..], d);
      var r := Split(s, d);
      assert s == s[..i] + [d] + s[i + 1..];
      forall k, c | 0 <= k < |r| && c in r[k] ensures c in s {
        if k > 0 {
          assert r[k] == Split(s[i + 1..], d)[k - 1];
        }
      }
    }
  }

  /** A string without the delimiter is a single piece. */
  lemma SplitNoDelimiter(s: string, d: char)
    requires d !in s
    ensures Split(s, d) == [s]
  {
  }

  /** Slicing a concatenation inside its first part. */
  lemma ConcatSlices(a: string, b: string, i: nat)
    requires i < |a|
    ensures (a + b)[..i] == a[..i] && (a + b)[i] == a[i] && (a + b)[i + 1..] == a[i + 1..] + b
  {
  }

  /** Splitting at the first delimiter. */
  lemma SplitAt(s: string, d: char, i: nat)
    requires i < |s| && s[i] == d && d !in s[..i]
    ensures Split(s, d) == [s[..i]] + Split(s[i + 1..], d)
  {
    FirstIndexAt(s, d, i);
  }

  /** Splitting distributes over a delimiter placed between two strings. */
  lemma {:induction false} SplitAround(a: string, b: string, d: char)
    ensures Split(a + [d] + b, d) == Split(a, d) + Split(b, d)
    decreases |a|
  {
    if d !in a {
      SplitAroundFirst(a, b, d);
    } else {
      var i := FirstIndex(a, d);
      SplitAround(a[i + 1..], b, d);
      SplitAroundLater(a, b, d, i);
    }
  }

  /** The inserted delimiter is the first one. */
  lemma SplitAroundFirst(a: string, b: string, d: char)
    requires d !in a
    ensures Split(a + [d] + b, d) == Split(a, d) + Split(b, d)
  {
    var s := a + [d] + b;
    assert s[..|a|] == a;
    assert s[|a| + 1..] == b;
    SplitAt(s, d, |a|);
    SplitNoDelimiter(a, d);
  }

  /** A delimiter of `a` comes first: split there and use the claim for the rest of `a`. */
  lemma SplitAroundLater(a: string, b: string, d: char, i: nat)
    requires i < |a| && a[i] == d && d !in a[..i]
    requires Split(a[i + 1..] + [d] + b, d) == Split(a[i + 1..], d) + Split(b, d)
    ensures Split(a + [d] + b, d) == Split(a, d) + Split(b, d)
  {
    var s := a + [d] + b;
    var rest := a[i + 1..];
    var head := [a[..i]];
    SplitAt(a, d, i);
    ConcatSlices(a, [d] + b, i);
    assert [d] + b == [d] + b && a + ([d] + b) == s && rest + ([d] + b) == rest + [d] + b;
    SplitAt(s, d, i);
    var p, q := Split(rest, d), Split(b, d);
    assert Split(s, d) == head + (p + q);
    ConcatAssoc(head, p, q);
  }
}
