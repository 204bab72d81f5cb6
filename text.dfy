/** Text primitives the interpreter relies on: Python's `str.strip`, `startswith`,
    `split` on one separator character, code-point string ordering, and the ASCII
    character classes used by its regular expressions. Strings are `seq<char>`. */
module Text {

  datatype Option<T> = None | Some(value: T)

  /** Python's `str.isspace()` characters: what `strip()` with no argument removes. */
  predicate IsSpace(c: char) {
    c == ' ' || ('\t' <= c <= '\r') || ('\U{001C}' <= c <= '\U{001F}') ||
    c == '\U{0085}' || c == '\U{00A0}' || c == '\U{1680}' ||
    ('\U{2000}' <= c <= '\U{200A}') || c == '\U{2028}' || c == '\U{2029}' ||
    c == '\U{202F}' || c == '\U{205F}' || c == '\U{3000}'
  }

  predicate IsDigit(c: char) { '0' <= c <= '9' }

  /** `[a-zA-Z_]` */
  predicate IsIdentStart(c: char) { ('a' <= c <= 'z') || ('A' <= c <= 'Z') || c == '_' }

  /** `[a-zA-Z0-9_]` */
  predicate IsIdentChar(c: char) { IsIdentStart(c) || IsDigit(c) }

  predicate StartsWith(s: string, prefix: string) {
    |prefix| <= |s| && s[..|prefix|] == prefix
  }

  predicate EndsWith(s: string, suffix: string) {
    |suffix| <= |s| && s[|s| - |suffix|..] == suffix
  }

  /** Drops leading whitespace (the suffix that starts at the first non-space
      character, as `StripLeftShape` states). */
  function StripLeft(s: string): (r: string)
    ensures |r| <= |s|
  {
    if |s| > 0 && IsSpace(s[0]) then StripLeft(s[1..]) else s
  }

  /** `StripLeft` keeps a suffix, drops only whitespace and stops at the first
      non-space character. */
  lemma {:induction false} StripLeftShape(s: string)
    ensures StripLeft(s) == s[|s| - |StripLeft(s)|..]
    ensures forall i :: 0 <= i < |s| - |StripLeft(s)| ==> IsSpace(s[i])
    ensures StripLeft(s) == [] || !IsSpace(StripLeft(s)[0])
  {
    if |s| > 0 && IsSpace(s[0]) {
      StripLeftShape(s[1..]);
      assert s[1..][|s| - 1 - |StripLeft(s)|..] == s[|s| - |StripLeft(s)|..];
      forall i | 0 <= i < |s| - |StripLeft(s)|
        ensures IsSpace(s[i])
      {
        if i > 0 {
          assert s[i] == s[1..][i - 1];
        }
      }
    }
  }

  /** Drops trailing whitespace (the prefix that ends at the last non-space
      character, as `StripRightShape` states). */
  function StripRight(s: string): (r: string)
    ensures |r| <= |s|
  {
    if |s| > 0 && IsSpace(s[|s| - 1]) then StripRight(s[..|s| - 1]) else s
  }

  /** `StripRight` keeps a prefix, drops only whitespace and stops at the last
      non-space character. */
  lemma {:induction false} StripRightShape(s: string)
    ensures StripRight(s) == s[..|StripRight(s)|]
    ensures forall i :: |StripRight(s)| <= i < |s| ==> IsSpace(s[i])
    ensures StripRight(s) == [] || !IsSpace(StripRight(s)[|StripRight(s)| - 1])
  {
    if |s| > 0 && IsSpace(s[|s| - 1]) {
      StripRightShape(s[..|s| - 1]);
      assert s[..|s| - 1][..|StripRight(s)|] == s[..|StripRight(s)|];
      forall i | |StripRight(s)| <= i < |s|
        ensures IsSpace(s[i])
      {
        if i < |s| - 1 {
          assert s[i] == s[..|s| - 1][i];
        }
      }
    }
  }

  /** Number of leading whitespace characters of `s`. */
  function LeadingSpace(s: string): nat
  {
    |s| - |StripLeft(s)|
  }

  /** Python's `s.strip()`: the piece of `s` left once the whitespace on both sides
      is gone (`StripSlice` and `StripShape` state which piece). */
  function Strip(s: string): (r: string)
    ensures |r| <= |s|
  {
    StripRight(StripLeft(s))
  }

  /** `Strip` keeps the piece of `s` that starts after the leading whitespace. */
  lemma StripSlice(s: string)
    ensures LeadingSpace(s) + |Strip(s)| <= |s|
    ensures Strip(s) == s[LeadingSpace(s)..LeadingSpace(s) + |Strip(s)|]
  {
    var l := StripLeft(s);
    StripLeftShape(s);
    StripRightShape(l);
    assert Strip(s) == s[|s| - |l|..][..|Strip(s)|];
  }

  /** What `Strip` drops is whitespace, and neither end of what it keeps is. */
  lemma StripShape(s: string)
    ensures forall i :: 0 <= i < LeadingSpace(s) ==> IsSpace(s[i])
    ensures forall i :: LeadingSpace(s) + |Strip(s)| <= i < |s| ==> IsSpace(s[i])
    ensures Strip(s) == [] || (!IsSpace(Strip(s)[0]) && !IsSpace(Strip(s)[|Strip(s)| - 1]))
  {
    var l := StripLeft(s);
    StripLeftShape(s);
    StripRightShape(l);
    assert forall i :: |s| - |l| <= i < |s| ==> s[i] == l[i - (|s| - |l|)];
    if Strip(s) != [] {
      assert Strip(s)[0] == l[0];
    }
  }

  /** A text with no whitespace at either end is its own strip. */
  lemma StripUnpadded(s: string)
    requires s == [] || (!IsSpace(s[0]) && !IsSpace(s[|s| - 1]))
    ensures Strip(s) == s
  {
    assert StripLeft(s) == s;
  }

  /** Stripping twice is stripping once: the run loop strips lines that the loader
      already stripped. */
  lemma StripIdempotent(s: string)
    ensures Strip(Strip(s)) == Strip(s)
  {
    StripShape(s);
    StripUnpadded(Strip(s));
  }

  /** Python's `s.split(sep)` for a one-character separator. */
  function Split(s: string, sep: char): (r: seq<string>)
    ensures |r| >= 1
    ensures forall i :: 0 <= i < |r| ==> |r[i]| <= |s|
    decreases |s|
  {
    if |s| == 0 then [""]
    else
      var rest := Split(s[1..], sep);
      if s[0] == sep then [""] + rest else [[s[0]] + rest[0]] + rest[1..]
  }

  /** Python's `sep.join(parts)` for a one-character separator. */
  function Join(parts: seq<string>, sep: char): string
    requires |parts| >= 1
    decreases |parts|
  {
    if |parts| == 1 then parts[0] else parts[0] + [sep] + Join(parts[1..], sep)
  }

  /** No piece of a split holds the separator. */
  lemma {:induction false} SplitPiecesLackSeparator(s: string, sep: char)
    ensures forall i, j :: 0 <= i < |Split(s, sep)| && 0 <= j < |Split(s, sep)[i]| ==> Split(s, sep)[i][j] != sep
    decreases |s|
  {
    if |s| > 0 {
      SplitPiecesLackSeparator(s[1..], sep);
    }
  }

  /** Splitting and joining again gives back the text: nothing is lost or reordered. */
  lemma {:induction false} SplitJoin(s: string, sep: char)
    ensures Join(Split(s, sep), sep) == s
    decreases |s|
  {
    if |s| > 0 {
      var rest := Split(s[1..], sep);
      SplitJoin(s[1..], sep);
      if s[0] == sep {
        assert Split(s, sep) == [""] + rest;
        assert Join([""] + rest, sep) == [sep] + Join(rest, sep);
      } else {
        var r := [[s[0]] + rest[0]] + rest[1..];
        assert Split(s, sep) == r;
        if |rest| == 1 {
          assert Join(r, sep) == [s[0]] + rest[0];
        } else {
          assert rest[1..][0] == rest[1] && rest[1..][1..] == rest[2..];
          assert Join(rest, sep) == rest[0] + [sep] + Join(rest[1..], sep);
          assert Join(r, sep) == [s[0]] + rest[0] + [sep] + Join(rest[1..], sep);
        }
      }
    }
  }

  /** Length of the longest run of `[a-zA-Z0-9_]` characters starting at `i`. */
  function IdentRun(s: string, i: nat): (n: nat)
    ensures i + n <= |s| || (i >= |s| && n == 0)
    ensures i + n < |s| ==> !IsIdentChar(s[i + n])
    decreases |s| - i
  {
    if i < |s| && IsIdentChar(s[i]) then 1 + IdentRun(s, i + 1) else 0
  }

  /** Every character of the run is an identifier character. */
  lemma {:induction false} IdentRunChars(s: string, i: nat)
    ensures forall k :: i <= k < i + IdentRun(s, i) ==> IsIdentChar(s[k])
    decreases |s| - i
  {
    if i < |s| && IsIdentChar(s[i]) {
      IdentRunChars(s, i + 1);
    }
  }

  /** The run of identifier characters is exactly as long as the given stretch when
      the stretch is followed by a non-identifier character or the end. */
  lemma IdentRunExact(s: string, i: nat, n: nat)
    requires i + n <= |s|
    requires forall k :: i <= k < i + n ==> IsIdentChar(s[k])
    requires i + n < |s| ==> !IsIdentChar(s[i + n])
    ensures IdentRun(s, i) == n
  {
    var m := IdentRun(s, i);
    if m < n {
      assert false;
    } else if m > n {
      IdentRunChars(s, i);
      assert false;
    }
  }

  /** Python's `<` on `str`: lexicographic by code point, a proper prefix first. */
  predicate LexLess(a: string, b: string)
    decreases |a|
  {
    if |a| == 0 then |b| > 0
    else if |b| == 0 then false
    else if a[0] != b[0] then a[0] < b[0]
    else LexLess(a[1..], b[1..])
  }

  /** Code-point order is a strict total order: exactly one of `a < b`, `a == b`,
      `b < a` holds. */
  lemma {:induction false} LexLessTrichotomy(a: string, b: string)
    ensures LexLess(a, b) || a == b || LexLess(b, a)
    ensures !(LexLess(a, b) && LexLess(b, a))
    ensures !LexLess(a, a)
    decreases |a|
  {
    if |a| > 0 && |b| > 0 {
      LexLessTrichotomy(a[1..], b[1..]);
      if a[0] == b[0] && a[1..] == b[1..] {
        assert a == [a[0]] + a[1..] && b == [b[0]] + b[1..];
      }
    }
    if |a| > 0 {
      LexLessTrichotomy(a[1..], a[1..]);
    }
  }

  /** Code-point order is transitive; with `LexLessTrichotomy` it is a strict total
      order. */
  lemma {:induction false} LexLessTransitive(a: string, b: string, c: string)
    requires LexLess(a, b) && LexLess(b, c)
    ensures LexLess(a, c)
    decreases |a|
  {
    if |a| > 0 && a[0] == b[0] && b[0] == c[0] {
      LexLessTransitive(a[1..], b[1..], c[1..]);
    }
  }

  /** Index of the last occurrence of `c` at or after `lo`, if any. */
  function LastIndex(s: string, c: char, lo: nat): (r: Option<nat>)
    ensures r.Some? ==> lo <= r.value < |s| && s[r.value] == c
    decreases |s|
  {
    if |s| <= lo then None
    else if s[|s| - 1] == c then Some(|s| - 1)
    else LastIndex(s[..|s| - 1], c, lo)
  }

  /** No occurrence of `c` follows the one found, and none at all lies at or after
      `lo` when none is found. */
  lemma {:induction false} LastIndexShape(s: string, c: char, lo: nat)
    ensures LastIndex(s, c, lo).Some? ==> forall j :: LastIndex(s, c, lo).value < j < |s| ==> s[j] != c
    ensures LastIndex(s, c, lo).None? ==> forall j :: lo <= j < |s| ==> s[j] != c
    decreases |s|
  {
    if |s| > lo && s[|s| - 1] != c {
      var t := s[..|s| - 1];
      LastIndexShape(t, c, lo);
      assert forall j :: 0 <= j < |t| ==> s[j] == t[j];
    }
  }

  /** The last occurrence at or after `lo`, pinned down by its characterization. */
  lemma {:induction false} LastIndexIs(s: string, c: char, lo: nat, k: nat)
    requires lo <= k < |s| && s[k] == c
    requires forall j :: k < j < |s| ==> s[j] != c
    ensures LastIndex(s, c, lo) == Some(k)
    decreases |s|
  {
    if k < |s| - 1 {
      var t := s[..|s| - 1];
      assert forall j :: 0 <= j < |t| ==> s[j] == t[j];
      LastIndexIs(t, c, lo, k);
    }
  }

  /** A non-empty word matching `[a-zA-Z_][a-zA-Z0-9_]*`. */
  predicate IsIdentifier(w: string) {
    |w| >= 1 && IsIdentStart(w[0]) && forall i :: 0 <= i < |w| ==> IsIdentChar(w[i])
  }

  /** Python's `s.count(c)` for one character. */
  function Count(s: string, c: char): (n: nat)
    ensures n <= |s|
    decreases |s|
  {
    if |s| == 0 then 0 else Count(s[..|s| - 1], c) + (if s[|s| - 1] == c then 1 else 0)
  }

  /** `pat` occurs in `s` starting at `j`. */
  predicate OccursAt(s: string, pat: string, j: nat) {
    j + |pat| <= |s| && s[j..j + |pat|] == pat
  }

  /** The first position at or after `from` where `pat` occurs in `s`. */
  function FindFirst(s: string, pat: string, from: nat): (r: Option<nat>)
    ensures r.Some? ==> from <= r.value && OccursAt(s, pat, r.value)
    ensures r.Some? ==> forall j :: from <= j < r.value ==> !OccursAt(s, pat, j)
    ensures r.None? ==> forall j :: from <= j ==> !OccursAt(s, pat, j)
    decreases |s| - from
  {
    if from + |pat| > |s| then None
    else if OccursAt(s, pat, from) then Some(from)
    else FindFirst(s, pat, from + 1)
  }
}
