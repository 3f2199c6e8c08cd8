/** The handful of Python `str` operations the application relies on, with the
    semantics CPython gives them: `strip()` with no argument, `replace(pat, "")`,
    `split(sep)` with a non-empty separator, `sep.join(parts)`, `startswith`,
    `endswith`, `pat in s`, slicing `s[:n]` and `lower()` on ASCII text. */
module Text {

  /** The characters for which CPython's `str.isspace()` holds; `str.strip()`
      with no argument removes exactly these from both ends. */
  predicate IsSpace(c: char) {
    || ('\t' <= c <= '\r')
    || ('\U{1C}' <= c <= '\U{1F}')
    || c == ' '
    || c == '\U{85}'
    || c == '\U{A0}'
    || c == '\U{1680}'
    || ('\U{2000}' <= c <= '\U{200A}')
    || c == '\U{2028}'
    || c == '\U{2029}'
    || c == '\U{202F}'
    || c == '\U{205F}'
    || c == '\U{3000}'
  }

  predicate AllSpace(s: string) {
    forall i :: 0 <= i < |s| ==> IsSpace(s[i])
  }

  /** Neither end of `s` is whitespace: `s.strip() == s`. */
  predicate IsStripped(s: string) {
    |s| == 0 || (!IsSpace(s[0]) && !IsSpace(s[|s| - 1]))
  }

  predicate StartsWith(s: string, prefix: string) {
    |prefix| <= |s| && s[..|prefix|] == prefix
  }

  predicate EndsWith(s: string, suffix: string) {
    |suffix| <= |s| && s[|s| - |suffix|..] == suffix
  }

  /** Python's `pat in s`: `pat` occurs somewhere in `s` as a contiguous run. */
  predicate Contains(s: string, pat: string) {
    exists i :: 0 <= i <= |s| - |pat| && OccursAt(s, pat, i)
  }

  /** `pat` occurs in `s` starting at index `i`. */
  predicate OccursAt(s: string, pat: string, i: int) {
    0 <= i <= |s| - |pat| && s[i..i + |pat|] == pat
  }

  /** `pat` occurs in `s` when it starts it or occurs in its tail. */
  lemma ContainsUnfold(s: string, pat: string)
    ensures Contains(s, pat) <==> StartsWith(s, pat) || (|s| > 0 && Contains(s[1..], pat))
  {
    if Contains(s, pat) {
      var i :| 0 <= i <= |s| - |pat| && OccursAt(s, pat, i);
      assert s[i..i + |pat|] == pat;
      if i > 0 {
        assert s[1..][i - 1..i - 1 + |pat|] == pat;
        assert OccursAt(s[1..], pat, i - 1);
      }
    }
    if StartsWith(s, pat) {
      assert OccursAt(s, pat, 0);
    }
    if |s| > 0 && Contains(s[1..], pat) {
      var t := s[1..];
      var j :| 0 <= j <= |t| - |pat| && OccursAt(t, pat, j);
      assert t[j..j + |pat|] == pat;
      assert s[j + 1..j + 1 + |pat|] == pat;
      assert OccursAt(s, pat, j + 1);
    }
  }

  /** `s.lstrip()`: drops leading whitespace. */
  function TrimStart(s: string): string
    decreases |s|
  {
    if |s| > 0 && IsSpace(s[0]) then TrimStart(s[1..]) else s
  }

  /** `s.rstrip()`: drops trailing whitespace. */
  function TrimEnd(s: string): string
    decreases |s|
  {
    if |s| > 0 && IsSpace(s[|s| - 1]) then TrimEnd(s[..|s| - 1]) else s
  }

  /** `s.lstrip()` is the suffix of `s` left after its longest all-whitespace prefix. */
  lemma {:induction false} TrimStartSpec(s: string)
    ensures var r := TrimStart(s);
            && |r| <= |s| && r == s[|s| - |r|..]
            && AllSpace(s[..|s| - |r|])
            && (|r| > 0 ==> !IsSpace(r[0]))
    decreases |s|
  {
    if |s| > 0 && IsSpace(s[0]) {
      TrimStartSpec(s[1..]);
      var r := TrimStart(s);
      assert s[..|s| - |r|] == [s[0]] + s[1..][..|s| - 1 - |r|];
    }
  }

  /** `s.rstrip()` is the prefix of `s` left before its longest all-whitespace suffix. */
  lemma {:induction false} TrimEndSpec(s: string)
    ensures var r := TrimEnd(s);
            && |r| <= |s| && r == s[..|r|]
            && AllSpace(s[|r|..])
            && (|r| > 0 ==> !IsSpace(r[|r| - 1]))
    decreases |s|
  {
    if |s| > 0 && IsSpace(s[|s| - 1]) {
      TrimEndSpec(s[..|s| - 1]);
      var r := TrimEnd(s);
      assert s[|r|..] == s[..|s| - 1][|r|..] + [s[|s| - 1]];
    }
  }

  /** `s.strip()`. */
  function Strip(s: string): (r: string)
    ensures IsStripped(r)
    ensures |r| <= |s|
  {
    TrimStartSpec(s);
    TrimEndSpec(TrimStart(s));
    var r := TrimEnd(TrimStart(s));
    assert |r| > 0 ==> r[0] == TrimStart(s)[0];
    r
  }

  /** `s.strip()` sits in `s` after the leading whitespace `s.lstrip()` dropped. */
  lemma StripInfix(s: string)
    ensures var i := |s| - |TrimStart(s)|;
            && 0 <= i && i + |Strip(s)| <= |s| && Strip(s) == s[i..i + |Strip(s)|]
            && AllSpace(s[..i]) && AllSpace(s[i + |Strip(s)|..])
  {
    TrimStartSpec(s);
    var t := TrimStart(s);
    TrimEndSpec(t);
    var r := TrimEnd(t);
    var i := |s| - |t|;
    assert r == s[i..i + |r|];
    assert s[i + |r|..] == t[|r|..];
  }

  /** `s.strip()` is empty exactly when `s` is all whitespace. */
  lemma StripEmpty(s: string)
    ensures Strip(s) == [] <==> AllSpace(s)
  {
    StripInfix(s);
    var i := |s| - |TrimStart(s)|;
    if Strip(s) == [] {
      forall k | 0 <= k < |s| ensures IsSpace(s[k]) {
        if k < i {
          assert s[k] == s[..i][k];
        } else {
          assert s[k] == s[i + |Strip(s)|..][k - i];
        }
      }
    }
  }

  /** `s.strip()` has only characters of `s`. */
  lemma StripChars(s: string)
    ensures forall c :: c in Strip(s) ==> c in s
  {
    StripInfix(s);
    var i := |s| - |TrimStart(s)|;
    var r := Strip(s);
    forall c | c in r ensures c in s {
      var k :| 0 <= k < |r| && r[k] == c;
      assert c == s[i + k];
    }
  }

  /** `s.strip()` is an infix of `s` whose surroundings are all whitespace:
      it keeps every character between the first and the last non-space. */
  lemma StripSpec(s: string)
    ensures exists i :: 0 <= i <= |s| - |Strip(s)| && Strip(s) == s[i..i + |Strip(s)|]
                        && AllSpace(s[..i]) && AllSpace(s[i + |Strip(s)|..])
    ensures forall c :: c in Strip(s) ==> c in s
    ensures Strip(s) == [] <==> AllSpace(s)
    ensures IsStripped(s) ==> Strip(s) == s
  {
    StripInfix(s);
    StripEmpty(s);
    StripChars(s);
    var i := |s| - |TrimStart(s)|;
    assert 0 <= i <= |s| - |Strip(s)| && Strip(s) == s[i..i + |Strip(s)|]
           && AllSpace(s[..i]) && AllSpace(s[i + |Strip(s)|..]);
    if IsStripped(s) && |s| > 0 {
      assert TrimStart(s) == s;
      assert TrimEnd(s) == s;
    }
  }

  /** `s.replace(pat, "")`: one left-to-right pass deleting non-overlapping
      occurrences of `pat`. */
  function Remove(s: string, pat: string): (r: string)
    requires |pat| > 0
    ensures |r| <= |s|
    decreases |s|
  {
    if |s| < |pat| then
      s
    else if StartsWith(s, pat) then
      Remove(s[|pat|..], pat)
    else
      [s[0]] + Remove(s[1..], pat)
  }

  /** `pat` starts at none of the first `n` positions of `s`. */
  predicate NoOccurrenceBefore(s: string, pat: string, n: int) {
    forall k :: 0 <= k < n ==> !OccursAt(s, pat, k)
  }

  /** Dropping the first character shifts every position down by one. */
  lemma NoOccurrenceShift(s: string, pat: string, n: nat)
    requires 0 < n <= |s| && NoOccurrenceBefore(s, pat, n)
    ensures NoOccurrenceBefore(s[1..], pat, n - 1)
  {
    var t := s[1..];
    forall k | 0 <= k < n - 1 ensures !OccursAt(t, pat, k) {
      assert !OccursAt(s, pat, k + 1);
      if k + |pat| <= |t| {
        assert t[k..k + |pat|] == s[k + 1..k + 1 + |pat|];
      }
    }
  }

  /** Where `pat` does not start, the deletion pass copies one character. */
  lemma RemoveCopiesHead(s: string, pat: string)
    requires |pat| > 0 && |s| > 0 && !OccursAt(s, pat, 0)
    ensures Remove(s, pat) == [s[0]] + Remove(s[1..], pat)
  {
    if |s| >= |pat| {
      assert !StartsWith(s, pat);
    }
  }

  /** The first `n` characters of `s` are its head and `n - 1` more. */
  lemma HeadSlices(s: string, n: nat)
    requires 0 < n <= |s|
    ensures [s[0]] + s[1..][..n - 1] == s[..n] && s[1..][n - 1..] == s[n..]
  {
  }

  /** The deletion pass copies the positions where `pat` does not start. */
  lemma {:induction false} RemoveSkip(s: string, pat: string, n: nat)
    requires |pat| > 0 && n <= |s| && NoOccurrenceBefore(s, pat, n)
    ensures Remove(s, pat) == s[..n] + Remove(s[n..], pat)
    decreases n
  {
    if n > 0 {
      var t := s[1..];
      RemoveCopiesHead(s, pat);
      NoOccurrenceShift(s, pat, n);
      RemoveSkip(t, pat, n - 1);
      HeadSlices(s, n);
      assert [s[0]] + (t[..n - 1] + Remove(t[n - 1..], pat)) == ([s[0]] + t[..n - 1]) + Remove(s[n..], pat);
    }
  }

  /** Deleting `pat` from `a + pat + b`, where `pat` starts nowhere in `a`,
      keeps `a`, drops that occurrence and goes on in `b`; when `b` is too
      short to hold `pat` this leaves `a + b`. */
  lemma RemoveInserted(a: string, pat: string, b: string)
    requires |pat| > 0
    requires NoOccurrenceBefore(a + pat + b, pat, |a|)
    ensures Remove(a + pat + b, pat) == a + Remove(b, pat)
    ensures |b| < |pat| ==> Remove(a + pat + b, pat) == a + b
  {
    var s := a + pat + b;
    RemoveSkip(s, pat, |a|);
    assert s[..|a|] == a;
    var tail := s[|a|..];
    assert tail == pat + b && tail[|pat|..] == b;
    assert StartsWith(tail, pat);
  }

  /** `s.replace(pat, "")` only deletes: it keeps characters of `s`, leaves
      no single-character pattern behind, and changes nothing when `pat`
      does not occur. */
  lemma RemoveSpec(s: string, pat: string)
    requires |pat| > 0
    ensures forall c :: c in Remove(s, pat) ==> c in s
    ensures |pat| == 1 ==> pat[0] !in Remove(s, pat)
    ensures !Contains(s, pat) ==> Remove(s, pat) == s
  {
    RemoveKeepsChars(s, pat);
    if |pat| == 1 {
      RemoveDropsChar(s, pat);
    }
    if !Contains(s, pat) {
      RemoveAbsent(s, pat);
    }
  }

  lemma {:induction false} RemoveKeepsChars(s: string, pat: string)
    requires |pat| > 0
    ensures forall c :: c in Remove(s, pat) ==> c in s
    decreases |s|
  {
    if |s| >= |pat| {
      if StartsWith(s, pat) {
        RemoveKeepsChars(s[|pat|..], pat);
        assert forall c :: c in s[|pat|..] ==> c in s;
      } else {
        RemoveKeepsChars(s[1..], pat);
        assert forall c :: c in s[1..] ==> c in s;
      }
    }
  }

  lemma {:induction false} RemoveDropsChar(s: string, pat: string)
    requires |pat| == 1
    ensures pat[0] !in Remove(s, pat)
    decreases |s|
  {
    if |s| >= |pat| {
      if StartsWith(s, pat) {
        RemoveDropsChar(s[1..], pat);
      } else {
        RemoveDropsChar(s[1..], pat);
        assert s[..1] == [s[0]];
      }
    }
  }

  lemma {:induction false} RemoveAbsent(s: string, pat: string)
    requires |pat| > 0 && !Contains(s, pat)
    ensures Remove(s, pat) == s
    decreases |s|
  {
    if |s| >= |pat| {
      ContainsUnfold(s, pat);
      RemoveAbsent(s[1..], pat);
      assert [s[0]] + s[1..] == s;
    }
  }

  /** `sep.join(parts)`. */
  function Join(sep: string, parts: seq<string>): string
    decreases |parts|
  {
    if |parts| == 0 then ""
    else if |parts| == 1 then parts[0]
    else parts[0] + sep + Join(sep, parts[1..])
  }

  /** `s.split(sep)` for a non-empty `sep`: scans left to right, cutting at
      each leftmost non-overlapping occurrence of `sep`. */
  function Split(s: string, sep: string): (parts: seq<string>)
    requires |sep| > 0
    ensures |parts| >= 1
    ensures StartsWith(s, parts[0])
    decreases |s|
  {
    if |s| < |sep| then
      [s]
    else if StartsWith(s, sep) then
      [""] + Split(s[|sep|..], sep)
    else
      var rest := Split(s[1..], sep);
      assert s[1..][..|rest[0]|] == rest[0];
      [[s[0]] + rest[0]] + rest[1..]
  }

  /** Joining the parts of a split with the same separator gives back the
      text, and no part contains the separator. */
  lemma {:induction false} SplitJoin(s: string, sep: string)
    requires |sep| > 0
    ensures Join(sep, Split(s, sep)) == s
    ensures forall i :: 0 <= i < |Split(s, sep)| ==> !Contains(Split(s, sep)[i], sep)
    decreases |s|
  {
    var parts := Split(s, sep);
    if |s| < |sep| {
      NoRoomNoOccurrence(s, sep);
    } else if StartsWith(s, sep) {
      var rest := Split(s[|sep|..], sep);
      SplitJoin(s[|sep|..], sep);
      assert parts == [""] + rest;
      assert Join(sep, [""] + rest) == "" + sep + Join(sep, rest);
      assert s == s[..|sep|] + s[|sep|..];
      assert forall i :: 1 <= i < |parts| ==> parts[i] == rest[i - 1];
    } else {
      var rest := Split(s[1..], sep);
      SplitJoin(s[1..], sep);
      var head := [s[0]] + rest[0];
      assert parts == [head] + rest[1..];
      assert StartsWith(s, head);
      assert !Contains(head, sep) by {
        assert head[1..] == rest[0];
        ContainsUnfold(head, sep);
      }
      JoinReplaceHead(sep, rest, s[0]);
      assert forall i :: 1 <= i < |parts| ==> parts[i] == rest[i];
    }
  }

  /** A text without the separator splits into itself alone. */
  lemma {:induction false} SplitAbsent(s: string, sep: string)
    requires |sep| > 0 && !Contains(s, sep)
    ensures Split(s, sep) == [s]
    decreases |s|
  {
    if |s| >= |sep| {
      assert StartsWith(s, sep) ==> OccursAt(s, sep, 0);
      var t := s[1..];
      ContainsUnfold(s, sep);
      SplitAbsent(t, sep);
      assert [s[0]] + t == s;
    }
  }

  /** Splitting at a one-character separator cuts at its first occurrence. */
  lemma {:induction false} SplitAtChar(a: string, c: char, b: string)
    requires c !in a
    ensures Split(a + [c] + b, [c]) == [a] + Split(b, [c])
    decreases |a|
  {
    var s := a + [c] + b;
    if |a| == 0 {
      assert s == [c] + b;
      assert s[1..] == b;
    } else {
      assert s[0] == a[0] && a[0] != c;
      var t := s[1..];
      assert t == a[1..] + [c] + b;
      SplitAtChar(a[1..], c, b);
      assert [s[0]] + a[1..] == a;
    }
  }

  /** Prepending a character to the first part prepends it to the joined text. */
  lemma JoinReplaceHead(sep: string, parts: seq<string>, c: char)
    requires |parts| >= 1
    ensures Join(sep, [[c] + parts[0]] + parts[1..]) == [c] + Join(sep, parts)
  {
    var parts' := [[c] + parts[0]] + parts[1..];
    assert parts'[1..] == parts[1..];
  }

  lemma NoRoomNoOccurrence(s: string, pat: string)
    requires |s| < |pat|
    ensures !Contains(s, pat)
  {
  }

  /** The stripped lines among `lines` that are not blank, in order. */
  function NonBlankLines(lines: seq<string>): (r: seq<string>)
    ensures |r| <= |lines|
    ensures forall i :: 0 <= i < |r| ==> r[i] != [] && IsStripped(r[i])
    decreases |lines|
  {
    if |lines| == 0 then []
    else
      var line := Strip(lines[0]);
      (if line == [] then [] else [line]) + NonBlankLines(lines[1..])
  }

  /** `s[:n]` for `n >= 0`. */
  function Take(s: string, n: nat): (r: string)
    ensures |r| == if |s| < n then |s| else n
    ensures StartsWith(s, r)
  {
    if |s| <= n then s else s[..n]
  }

  /** `c.lower()` for an ASCII letter; every other character is unchanged. */
  function LowerChar(c: char): char {
    if 'A' <= c <= 'Z' then (c as int + 32) as char else c
  }

  /** `s.lower()` on text whose letters are ASCII. */
  function AsciiLower(s: string): (r: string)
    ensures |r| == |s|
    ensures forall i :: 0 <= i < |s| ==> r[i] == LowerChar(s[i])
  {
    seq(|s|, i requires 0 <= i < |s| => LowerChar(s[i]))
  }

  /** Lowercasing works character by character, so it distributes over concatenation. */
  lemma AsciiLowerAppend(a: string, b: string)
    ensures AsciiLower(a + b) == AsciiLower(a) + AsciiLower(b)
  {
    assert forall i :: 0 <= i < |a| + |b| ==> AsciiLower(a + b)[i] == (AsciiLower(a) + AsciiLower(b))[i];
  }

  /** Deleting a single character from non-empty text looks at its first character only. */
  lemma RemoveFirst(s: string, c: char)
    requires |s| > 0
    ensures Remove(s, [c]) == if s[0] == c then Remove(s[1..], [c]) else [s[0]] + Remove(s[1..], [c])
  {
    assert s[..1] == [s[0]];
  }

  /** Deleting a single character distributes over concatenation: no
      occurrence can straddle the seam. */
  lemma {:induction false} RemoveAppend(a: string, b: string, c: char)
    ensures Remove(a + b, [c]) == Remove(a, [c]) + Remove(b, [c])
    decreases |a|
  {
    if |a| == 0 {
      assert a + b == b;
    } else {
      RemoveAppend(a[1..], b, c);
      var ab := a + b;
      assert ab[0] == a[0] && ab[1..] == a[1..] + b;
      RemoveFirst(ab, c);
      RemoveFirst(a, c);
    }
  }

  /** A prefix stays a prefix when text is appended. */
  lemma StartsWithExtend(s: string, t: string, prefix: string)
    requires StartsWith(s, prefix)
    ensures StartsWith(s + t, prefix)
  {
    assert (s + t)[..|prefix|] == s[..|prefix|];
  }

  /** An occurrence stays an occurrence when text is appended. */
  lemma ContainsExtend(s: string, t: string, pat: string)
    requires Contains(s, pat)
    ensures Contains(s + t, pat)
  {
    var i :| 0 <= i <= |s| - |pat| && OccursAt(s, pat, i);
    assert s[i..i + |pat|] == pat;
    assert (s + t)[i..i + |pat|] == pat;
    assert OccursAt(s + t, pat, i);
  }

  /** `b` occurs at the end of `a + b`. */
  lemma ContainsSuffix(a: string, b: string)
    ensures Contains(a + b, b)
  {
    assert (a + b)[|a|..|a| + |b|] == b;
    assert OccursAt(a + b, b, |a|);
  }

  /** `a` occurs at the start of `a + b`. */
  lemma ContainsPrefix(a: string, b: string)
    ensures Contains(a + b, a)
  {
    assert (a + b)[0..|a|] == a;
    assert OccursAt(a + b, a, 0);
  }

  /** Every character of an occurring pattern is a character of the text. */
  lemma ContainsChars(s: string, pat: string)
    requires Contains(s, pat)
    ensures forall c :: c in pat ==> c in s
  {
    var i :| 0 <= i <= |s| - |pat| && OccursAt(s, pat, i);
    assert s[i..i + |pat|] == pat;
    forall c | c in pat ensures c in s {
      var k :| 0 <= k < |pat| && pat[k] == c;
      assert s[i + k] == c;
    }
  }

  /** A pattern holding a character the text lacks does not occur in it. */
  lemma MissingCharNoOccurrence(s: string, pat: string, c: char)
    requires c in pat && c !in s
    ensures !Contains(s, pat)
  {
    if Contains(s, pat) {
      ContainsChars(s, pat);
    }
  }

  /** An occurrence in `a + b` lies within `b`, or starts in `a` and ends
      before the `|pat|`-th character of `b`. */
  lemma ContainsAppend(a: string, b: string, pat: string)
    requires |pat| > 0 && Contains(a + b, pat)
    ensures Contains(a + Take(b, |pat| - 1), pat) || Contains(b, pat)
  {
    var s := a + b;
    var i :| 0 <= i <= |s| - |pat| && OccursAt(s, pat, i);
    assert s[i..i + |pat|] == pat;
    if i >= |a| {
      assert b[i - |a|..i - |a| + |pat|] == pat;
      assert OccursAt(b, pat, i - |a|);
    } else {
      var t := a + Take(b, |pat| - 1);
      assert t[i..i + |pat|] == pat;
      assert OccursAt(t, pat, i);
    }
  }

  /** An occurrence inside an occurrence is an occurrence. */
  lemma ContainsTrans(s: string, t: string, pat: string)
    requires Contains(s, t) && Contains(t, pat)
    ensures Contains(s, pat)
  {
    var i :| 0 <= i <= |s| - |t| && OccursAt(s, t, i);
    var j :| 0 <= j <= |t| - |pat| && OccursAt(t, pat, j);
    assert s[i..i + |t|] == t && t[j..j + |pat|] == pat;
    forall m | 0 <= m < |pat| ensures s[i + j + m] == pat[m] {
      assert s[i + j + m] == s[i..i + |t|][j + m] == t[j + m];
    }
    assert s[i + j..i + j + |pat|] == pat;
    assert OccursAt(s, pat, i + j);
  }

  /** `s.strip()` occurs in `s`. */
  lemma ContainsStrip(s: string)
    ensures Contains(s, Strip(s))
  {
    StripInfix(s);
    assert OccursAt(s, Strip(s), |s| - |TrimStart(s)|);
  }

  /** A character of `s` is a one-character text occurring in `s`. */
  lemma CharContains(s: string, c: char)
    requires c in s
    ensures Contains(s, [c])
  {
    var k :| 0 <= k < |s| && s[k] == c;
    assert s[k..k + 1] == [c];
    assert OccursAt(s, [c], k);
  }

  /** Every part occurs in the joined text. */
  lemma {:induction false} JoinContainsParts(sep: string, parts: seq<string>)
    ensures forall k :: 0 <= k < |parts| ==> Contains(Join(sep, parts), parts[k])
    decreases |parts|
  {
    if |parts| == 1 {
      assert parts[0][0..|parts[0]|] == parts[0];
      assert OccursAt(parts[0], parts[0], 0);
    } else if |parts| > 1 {
      var rest := Join(sep, parts[1..]);
      JoinContainsParts(sep, parts[1..]);
      assert Join(sep, parts) == parts[0] + (sep + rest) == (parts[0] + sep) + rest;
      ContainsPrefix(parts[0], sep + rest);
      ContainsSuffix(parts[0] + sep, rest);
      forall k | 1 <= k < |parts| ensures Contains(Join(sep, parts), parts[k]) {
        assert parts[k] == parts[1..][k - 1];
        ContainsTrans(Join(sep, parts), rest, parts[k]);
      }
    }
  }

  /** Joining all-whitespace parts with an all-whitespace separator gives
      all-whitespace text. */
  lemma {:induction false} JoinAllSpace(sep: string, parts: seq<string>)
    requires AllSpace(sep) && forall k :: 0 <= k < |parts| ==> AllSpace(parts[k])
    ensures AllSpace(Join(sep, parts))
    decreases |parts|
  {
    if |parts| > 1 {
      JoinAllSpace(sep, parts[1..]);
      assert AllSpace(parts[0]);
    }
  }

  /** Text occurring in all-whitespace text is all whitespace. */
  lemma AllSpaceInfix(s: string, t: string)
    requires AllSpace(s) && Contains(s, t)
    ensures AllSpace(t)
  {
    var i :| 0 <= i <= |s| - |t| && OccursAt(s, t, i);
    assert s[i..i + |t|] == t;
    forall k | 0 <= k < |t| ensures IsSpace(t[k]) {
      assert t[k] == s[i + k];
    }
  }

  /** A pattern none of whose characters is in `sep`, and which occurs in
      neither `a` nor `b`, does not occur in `a + sep + b`. */
  lemma NoOccurrenceAcross(a: string, sep: string, b: string, pat: string)
    requires |pat| > 0 && |sep| > 0
    requires forall k :: 0 <= k < |pat| ==> pat[k] !in sep
    requires !Contains(a, pat) && !Contains(b, pat)
    ensures !Contains(a + sep + b, pat)
  {
    var s := a + sep + b;
    forall i | 0 <= i <= |s| - |pat| ensures !OccursAt(s, pat, i) {
      if i + |pat| <= |a| {
        assert s[i..i + |pat|] == a[i..i + |pat|];
        assert !OccursAt(a, pat, i);
      } else if i >= |a| + |sep| {
        var j := i - |a| - |sep|;
        assert s[i..i + |pat|] == b[j..j + |pat|];
        assert !OccursAt(b, pat, j);
      } else {
        var k := if i < |a| then |a| else i;
        assert s[k] == sep[k - |a|];
        assert s[k] in sep;
      }
    }
  }

  /** The first position of `c` in `s`. */
  lemma {:induction false} FirstOccurrence(s: string, c: char) returns (f: nat)
    requires c in s
    ensures f < |s| && s[f] == c && c !in s[..f]
    decreases |s|
  {
    if s[0] == c {
      f := 0;
    } else {
      var g := FirstOccurrence(s[1..], c);
      f := g + 1;
      assert s[..f] == [s[0]] + s[1..][..g];
    }
  }

  /** Appending text after a line break leaves the first line alone. */
  lemma SplitHeadInside(a: string, b: string, c: char)
    requires c in a
    ensures Split(a + b, [c])[0] == Split(a, [c])[0]
  {
    var f := FirstOccurrence(a, c);
    var a1, a2 := a[..f], a[f + 1..];
    assert a == a1 + [c] + a2;
    SplitAtChar(a1, c, a2);
    assert a + b == a1 + [c] + (a2 + b);
    SplitAtChar(a1, c, a2 + b);
  }

  /** Text without a line break, put in front, joins the first line. */
  lemma SplitHeadBefore(a: string, b: string, c: char)
    requires c !in a && c in b
    ensures Split(a + b, [c])[0] == a + Split(b, [c])[0]
  {
    var f := FirstOccurrence(b, c);
    var b1, b2 := b[..f], b[f + 1..];
    assert b == b1 + [c] + b2;
    SplitAtChar(b1, c, b2);
    assert a + b == (a + b1) + [c] + b2;
    assert c !in a + b1;
    SplitAtChar(a + b1, c, b2);
  }

  /** When the separator does not start `s`, the first part starts with `s[0]`. */
  lemma SplitHeadStart(s: string, c: char)
    requires c in s && s[0] != c
    ensures Split(s, [c])[0] != [] && Split(s, [c])[0][0] == s[0]
  {
    var f := FirstOccurrence(s, c);
    assert s == s[..f] + [c] + s[f + 1..];
    SplitAtChar(s[..f], c, s[f + 1..]);
  }

  /** The last character of `s.strip()` is the last non-space character of `s`. */
  lemma LastNonSpace(s: string, k: nat)
    requires k < |s| && !IsSpace(s[k]) && AllSpace(s[k + 1..])
    ensures Strip(s) != [] && Strip(s)[|Strip(s)| - 1] == s[k]
  {
    StripInfix(s);
    StripEmpty(s);
    var i := |s| - |TrimStart(s)|;
    var r := Strip(s);
    var e := i + |r|;
    assert forall j :: e <= j < |s| ==> IsSpace(s[j]) by {
      forall j | e <= j < |s| ensures IsSpace(s[j]) {
        assert s[j] == s[e..][j - e];
      }
    }
    assert forall j :: k < j < |s| ==> IsSpace(s[j]) by {
      forall j | k < j < |s| ensures IsSpace(s[j]) {
        assert s[j] == s[k + 1..][j - k - 1];
      }
    }
    assert r[|r| - 1] == s[e - 1];
  }

  /** Stripping `a + t`, where `t` starts with a non-space character, ends
      where stripping `t` ends. */
  lemma StripEndAfter(a: string, t: string)
    requires t != [] && !IsSpace(t[0])
    ensures Strip(t) != [] && Strip(a + t) != []
    ensures Strip(a + t)[|Strip(a + t)| - 1] == Strip(t)[|Strip(t)| - 1]
  {
    StripInfix(t);
    StripEmpty(t);
    var r := Strip(t);
    var e := |t| - |TrimStart(t)| + |r|;
    assert r[|r| - 1] == t[e - 1];
    var s := a + t;
    assert s[|a| + e - 1] == t[e - 1];
    assert s[|a| + e..] == t[e..];
    LastNonSpace(s, |a| + e - 1);
  }
}
