/**
 * The JavaScript string built-ins the storefront relies on: `trim`,
 * `toLowerCase`, `split`, `join`, `includes`, `startsWith`, number to string,
 * `parseInt` and the default comparison of `Array.prototype.sort`.
 *
 * Characters are Dafny `char`s. `trim` removes ASCII white space only and
 * `toLowerCase` folds only `A`-`Z`; JavaScript applies the Unicode tables.
 * The string order compares character codes, which agrees with JavaScript's
 * UTF-16 code-unit order on the Basic Multilingual Plane.
 */
module Text {
  import opened Wrappers

  // ---------------------------------------------------------------------------
  // trim

  /** White space as removed by `String.prototype.trim` (ASCII part). */
  predicate IsSpace(c: char) {
    c == ' ' || c == '\t' || c == '\n' || c == '\r' || c == '\U{000B}' || c == '\U{000C}'
  }

  /** `s` with its leading white space removed: the longest suffix that does not start with a space. */
  function TrimStart(s: string): (r: string)
    ensures |r| <= |s| && r == s[|s| - |r|..]
    ensures r == [] || !IsSpace(r[0])
    ensures forall k :: 0 <= k < |s| - |r| ==> IsSpace(s[k])
  {
    if |s| > 0 && IsSpace(s[0]) then TrimStart(s[1..]) else s
  }

  /** `s` with its trailing white space removed: the longest prefix that does not end with a space. */
  function TrimEnd(s: string): (r: string)
    ensures |r| <= |s| && r == s[..|r|]
    ensures r == [] || !IsSpace(r[|r| - 1])
    ensures forall k :: |r| <= k < |s| ==> IsSpace(s[k])
  {
    if |s| > 0 && IsSpace(s[|s| - 1]) then TrimEnd(s[..|s| - 1]) else s
  }

  /** `s.trim()` */
  function Trim(s: string): string {
    TrimEnd(TrimStart(s))
  }

  /** How many leading white-space characters `trim` drops. */
  function LeadingSpaces(s: string): nat {
    |s| - |TrimStart(s)|
  }

  /**
   * The trimmed string is the slice of `s` that starts after the leading white
   * space, everything around it is white space, and it has no white space at
   * either end.
   */
  lemma TrimSlice(s: string)
    ensures LeadingSpaces(s) + |Trim(s)| <= |s|
    ensures Trim(s) == s[LeadingSpaces(s)..LeadingSpaces(s) + |Trim(s)|]
    ensures forall k :: 0 <= k < LeadingSpaces(s) ==> IsSpace(s[k])
    ensures forall k :: LeadingSpaces(s) + |Trim(s)| <= k < |s| ==> IsSpace(s[k])
    ensures Trim(s) == [] || (!IsSpace(Trim(s)[0]) && !IsSpace(Trim(s)[|Trim(s)| - 1]))
  {
    TrimSliceAt(s);
    TrimSliceEnds(s);
  }

  lemma TrimSliceAt(s: string)
    ensures LeadingSpaces(s) + |Trim(s)| <= |s|
    ensures Trim(s) == s[LeadingSpaces(s)..LeadingSpaces(s) + |Trim(s)|]
    ensures forall k :: LeadingSpaces(s) + |Trim(s)| <= k < |s| ==> IsSpace(s[k])
  {
    var t := TrimStart(s);
    PrefixOfSuffix(s, |s| - |t|, TrimEnd(t));
  }

  lemma TrimSliceEnds(s: string)
    ensures Trim(s) == [] || (!IsSpace(Trim(s)[0]) && !IsSpace(Trim(s)[|Trim(s)| - 1]))
  {
    var t := TrimStart(s);
    var r := TrimEnd(t);
    if r != [] {
      assert r[0] == t[0];
    }
  }

  /** A prefix `r` of the suffix `s[i..]` is the slice of `s` at `i`, and what follows it in `s` is what follows it in the suffix. */
  lemma PrefixOfSuffix(s: string, i: nat, r: string)
    requires i <= |s| && |r| <= |s| - i && r == s[i..][..|r|]
    ensures r == s[i..i + |r|]
    ensures forall k :: i + |r| <= k < |s| ==> s[k] == s[i..][k - i]
  {
  }

  /** A string with no white space at either end is its own trim. */
  lemma TrimNoSpaceEnds(s: string)
    requires s == [] || (!IsSpace(s[0]) && !IsSpace(s[|s| - 1]))
    ensures Trim(s) == s
  {
  }

  /** Trimming twice is trimming once. */
  lemma TrimIdempotent(s: string)
    ensures Trim(Trim(s)) == Trim(s)
  {
    TrimSlice(s);
    TrimNoSpaceEnds(Trim(s));
  }

  /** A string trims to "" exactly when it is all white space. */
  lemma TrimBlank(s: string)
    ensures Trim(s) == [] <==> forall k :: 0 <= k < |s| ==> IsSpace(s[k])
  {
    TrimSlice(s);
    if Trim(s) != [] {
      assert s[LeadingSpaces(s)] == Trim(s)[0];
    }
  }

  // ---------------------------------------------------------------------------
  // toLowerCase

  function LowerChar(c: char): (r: char)
    ensures 'A' <= c <= 'Z' ==> r as int == c as int + 32
    ensures !('A' <= c <= 'Z') ==> r == c
  {
    if 'A' <= c <= 'Z' then (c as int + 32) as char else c
  }

  /** `s.toLowerCase()`: every character folded, nothing else changed. */
  function ToLower(s: string): (r: string)
    ensures |r| == |s|
    ensures forall i :: 0 <= i < |s| ==> r[i] == LowerChar(s[i])
  {
    seq(|s|, i requires 0 <= i < |s| => LowerChar(s[i]))
  }

  /** The case-insensitive comparison `a.toLowerCase() === b.toLowerCase()`. */
  predicate EqualsIgnoreCase(a: string, b: string) {
    ToLower(a) == ToLower(b)
  }

  /** Lowering is idempotent, so a lowered string compares equal to its original ignoring case. */
  lemma ToLowerIdempotent(s: string)
    ensures ToLower(ToLower(s)) == ToLower(s)
    ensures EqualsIgnoreCase(ToLower(s), s)
  {
    assert forall i :: 0 <= i < |s| ==> LowerChar(LowerChar(s[i])) == LowerChar(s[i]);
  }

  // ---------------------------------------------------------------------------
  // split and join

  /** `s.split(sep)` for a one-character separator: always at least one piece, none containing `sep`. */
  function Split(s: string, sep: char): (r: seq<string>)
    ensures |r| >= 1
    ensures forall i :: 0 <= i < |r| ==> sep !in r[i]
  {
    if |s| == 0 then [""]
    else
      var rest := Split(s[1..], sep);
      if s[0] == sep then [""] + rest
      else [[s[0]] + rest[0]] + rest[1..]
  }

  /** `parts.join(sep)` for a one-character separator. */
  function Join(parts: seq<string>, sep: char): string {
    if |parts| == 0 then ""
    else if |parts| == 1 then parts[0]
    else parts[0] + [sep] + Join(parts[1..], sep)
  }

  /** Joining the pieces of a split gives the original string back. */
  lemma {:induction false} JoinSplit(s: string, sep: char)
    ensures Join(Split(s, sep), sep) == s
  {
    if |s| > 0 {
      var rest := Split(s[1..], sep);
      JoinSplit(s[1..], sep);
      if s[0] == sep {
        assert ([""] + rest)[1..] == rest;
      } else {
        var r := [[s[0]] + rest[0]] + rest[1..];
        if |rest| > 1 {
          assert r[1..] == rest[1..];
        }
      }
    }
  }

  lemma {:induction false} SplitNoSep(a: string, sep: char)
    requires sep !in a
    ensures Split(a, sep) == [a]
  {
    if |a| > 0 {
      assert sep !in a[1..];
      SplitNoSep(a[1..], sep);
      assert [a[0]] + a[1..] == a;
    }
  }

  lemma {:induction false} SplitAfterPiece(a: string, b: string, sep: char)
    requires sep !in a
    ensures Split(a + [sep] + b, sep) == [a] + Split(b, sep)
  {
    var s := a + [sep] + b;
    if |a| == 0 {
      assert s[1..] == b;
    } else {
      assert s[1..] == a[1..] + [sep] + b;
      SplitAfterPiece(a[1..], b, sep);
      assert [a[0]] + a[1..] == a;
    }
  }

  /** Splitting a join of separator-free pieces gives the pieces back. */
  lemma {:induction false} SplitJoin(parts: seq<string>, sep: char)
    requires |parts| >= 1
    requires forall i :: 0 <= i < |parts| ==> sep !in parts[i]
    ensures Split(Join(parts, sep), sep) == parts
  {
    if |parts| == 1 {
      SplitNoSep(parts[0], sep);
    } else {
      SplitJoin(parts[1..], sep);
      SplitAfterPiece(parts[0], Join(parts[1..], sep), sep);
      assert [parts[0]] + parts[1..] == parts;
    }
  }

  /** The first piece of a split is the prefix of `s` before the first separator. */
  lemma {:induction false} SplitFirst(s: string, sep: char)
    ensures Split(s, sep)[0] <= s
    ensures |Split(s, sep)[0]| < |s| ==> s[|Split(s, sep)[0]|] == sep
  {
    if |s| > 0 {
      SplitFirst(s[1..], sep);
    }
  }

  // ---------------------------------------------------------------------------
  // includes

  /** `s.includes(t)`: `t` occurs in `s` starting at some position. */
  function Contains(s: string, t: string): bool {
    t <= s || (|s| > 0 && Contains(s[1..], t))
  }

  /** `t` occurs in `s` at position `i`. */
  predicate OccursAt(s: string, t: string, i: int) {
    0 <= i && i + |t| <= |s| && s[i..i + |t|] == t
  }

  /** `includes` agrees with the definition "some slice of `s` equals `t`". */
  lemma ContainsIff(s: string, t: string)
    ensures Contains(s, t) <==> exists i :: OccursAt(s, t, i)
  {
    if Contains(s, t) {
      ContainsOccurs(s, t);
    }
    if exists i :: OccursAt(s, t, i) {
      var i :| OccursAt(s, t, i);
      OccursContains(s, t, i);
    }
  }

  lemma {:induction false} ContainsOccurs(s: string, t: string)
    requires Contains(s, t)
    ensures exists i :: OccursAt(s, t, i)
  {
    if t <= s {
      assert OccursAt(s, t, 0);
    } else {
      ContainsOccurs(s[1..], t);
      var i :| OccursAt(s[1..], t, i);
      assert s[1..][i..i + |t|] == s[i + 1..i + 1 + |t|];
      assert OccursAt(s, t, i + 1);
    }
  }

  lemma {:induction false} OccursContains(s: string, t: string, i: int)
    requires OccursAt(s, t, i)
    ensures Contains(s, t)
    decreases i
  {
    if i == 0 {
      assert t <= s;
    } else {
      assert s[1..][i - 1..i - 1 + |t|] == s[i..i + |t|];
      OccursContains(s[1..], t, i - 1);
    }
  }

  /** Every string includes the empty string. */
  lemma ContainsEmpty(s: string)
    ensures Contains(s, "")
  {
  }

  // ---------------------------------------------------------------------------
  // numbers to and from text

  predicate IsDigit(c: char) {
    '0' <= c <= '9'
  }

  function DigitChar(d: nat): (c: char)
    requires d < 10
    ensures IsDigit(c) && c as int - '0' as int == d
  {
    ('0' as int + d) as char
  }

  /** Decimal digits of `n` without leading zeros (`"0"` for zero). */
  function NatToString(n: nat): (r: string)
    ensures |r| >= 1
    ensures forall i :: 0 <= i < |r| ==> IsDigit(r[i])
  {
    if n < 10 then [DigitChar(n)] else NatToString(n / 10) + [DigitChar(n % 10)]
  }

  /** `String(n)` for an integer-valued number. */
  function IntToString(n: int): (r: string)
    ensures |r| >= 1
    ensures n < 0 ==> r[0] == '-' && r[1..] == NatToString(-n)
    ensures n >= 0 ==> r == NatToString(n)
  {
    if n < 0 then "-" + NatToString(-n) else NatToString(n)
  }

  /** The value of a string of decimal digits. */
  function DigitsValue(d: string): nat
    requires forall i :: 0 <= i < |d| ==> IsDigit(d[i])
  {
    if |d| == 0 then 0
    else
      var last := d[|d| - 1];
      assert IsDigit(last);
      DigitsValue(d[..|d| - 1]) * 10 + (last as int - '0' as int)
  }

  /** The longest prefix of `s` made of decimal digits. */
  function DigitPrefix(s: string): (r: string)
    ensures r <= s
    ensures forall i :: 0 <= i < |r| ==> IsDigit(r[i])
    ensures |r| < |s| ==> !IsDigit(s[|r|])
  {
    if |s| > 0 && IsDigit(s[0]) then [s[0]] + DigitPrefix(s[1..]) else ""
  }

  /** The value of the leading run of digits of `s`; `None` when `s` does not start with a digit. */
  function ReadDigits(s: string): Option<nat> {
    var d := DigitPrefix(s);
    if d == [] then None else Some(DigitsValue(d))
  }

  /**
   * `parseInt(s)` with no radix, for decimal text: leading white space is
   * skipped, one sign is accepted, then the longest run of digits is read.
   * `None` is `NaN`: there were no digits. The `0x` prefix is not modelled.
   */
  function ParseInt(s: string): Option<int> {
    var t := TrimStart(s);
    if |t| > 0 && t[0] == '-' then
      match ReadDigits(t[1..])
      case None => None
      case Some(m) => Some(-(m as int))
    else if |t| > 0 && t[0] == '+' then
      match ReadDigits(t[1..])
      case None => None
      case Some(m) => Some(m)
    else
      match ReadDigits(t)
      case None => None
      case Some(m) => Some(m)
  }

  /** The digit prefix of a run of digits followed by a non-digit (or nothing) is that run. */
  lemma {:induction false} DigitPrefixOfDigits(d: string, rest: string)
    requires forall i :: 0 <= i < |d| ==> IsDigit(d[i])
    requires rest == [] || !IsDigit(rest[0])
    ensures DigitPrefix(d + rest) == d
  {
    if |d| > 0 {
      assert (d + rest)[1..] == d[1..] + rest;
      DigitPrefixOfDigits(d[1..], rest);
      assert [d[0]] + d[1..] == d;
    } else {
      assert d + rest == rest;
    }
  }

  lemma {:induction false} NatToStringValue(n: nat)
    ensures DigitsValue(NatToString(n)) == n
  {
    if n >= 10 {
      NatToStringValue(n / 10);
      var r := NatToString(n);
      assert r[..|r| - 1] == NatToString(n / 10);
    }
  }

  /** A text that starts with a non-space character is its own `trimStart`. */
  lemma TrimStartNoSpace(s: string)
    requires s != [] && !IsSpace(s[0])
    ensures TrimStart(s) == s
  {
  }

  /**
   * `parseInt(String(n) + rest) === n` when `rest` does not start with a
   * digit: the textual form of an integer reads back as that integer, also
   * at the head of a longer text.
   */
  lemma ParseIntOfIntToString(n: int, rest: string)
    requires rest == [] || !IsDigit(rest[0])
    ensures ParseInt(IntToString(n) + rest) == Some(n)
  {
    if n < 0 {
      ParseIntOfNegativeText(n, rest);
    } else {
      ReadDigitsOfNat(n, rest);
      ParseIntOfNonNegative(NatToString(n) + rest);
    }
  }

  lemma ParseIntOfNegativeText(n: int, rest: string)
    requires n < 0
    requires rest == [] || !IsDigit(rest[0])
    ensures ParseInt(IntToString(n) + rest) == Some(n)
  {
    ReadDigitsOfNat(-n, rest);
    NegativeText(n, rest);
    ParseIntOfNegative(NatToString(-n) + rest, -n);
  }

  lemma NegativeText(n: int, rest: string)
    requires n < 0
    ensures IntToString(n) + rest == ['-'] + (NatToString(-n) + rest)
  {
    assert IntToString(n) == ['-'] + NatToString(-n);
  }

  /** The digits of `m` followed by a non-digit read as `m`. */
  lemma ReadDigitsOfNat(m: nat, rest: string)
    requires rest == [] || !IsDigit(rest[0])
    ensures ReadDigits(NatToString(m) + rest) == Some(m)
    ensures IsDigit((NatToString(m) + rest)[0])
  {
    NatToStringValue(m);
    DigitPrefixOfDigits(NatToString(m), rest);
  }

  /** A text that starts with a digit reads as its leading digits. */
  lemma ParseIntOfNonNegative(body: string)
    requires body != [] && IsDigit(body[0])
    ensures ParseInt(body) == ReadDigits(body)
  {
    TrimStartNoSpace(body);
  }

  /** A minus sign followed by a digit reads as the negated leading digits. */
  lemma ParseIntOfNegative(body: string, m: nat)
    requires body != [] && IsDigit(body[0])
    requires ReadDigits(body) == Some(m)
    ensures ParseInt(['-'] + body) == Some(-(m as int))
  {
    var s := ['-'] + body;
    assert s[1..] == body;
    TrimStartNoSpace(s);
  }

  /** The text of an integer holds only digits and possibly a leading minus sign. */
  lemma IntToStringChars(n: int)
    ensures forall i :: 0 <= i < |IntToString(n)| ==> IsDigit(IntToString(n)[i]) || IntToString(n)[i] == '-'
  {
    var r := IntToString(n);
    if n < 0 {
      forall i | 0 <= i < |r|
        ensures IsDigit(r[i]) || r[i] == '-'
      {
        if i > 0 {
          assert r[i] == r[1..][i - 1];
        }
      }
    }
  }

  // ---------------------------------------------------------------------------
  // string order and sorting

  /** The default comparison of `Array.prototype.sort`: `a` sorts strictly before `b`. */
  predicate Less(a: string, b: string) {
    if |a| == 0 then |b| > 0
    else if |b| == 0 then false
    else if a[0] != b[0] then a[0] < b[0]
    else Less(a[1..], b[1..])
  }

  predicate LessEq(a: string, b: string) {
    a == b || Less(a, b)
  }

  lemma {:induction false} LessIrreflexive(a: string)
    ensures !Less(a, a)
  {
    if |a| > 0 {
      LessIrreflexive(a[1..]);
    }
  }

  lemma {:induction false} LessTransitive(a: string, b: string, c: string)
    requires Less(a, b) && Less(b, c)
    ensures Less(a, c)
  {
    if |a| > 0 && |b| > 0 && |c| > 0 && a[0] == b[0] && b[0] == c[0] {
      LessTransitive(a[1..], b[1..], c[1..]);
    }
  }

  /** Any two different strings are ordered one way or the other, and never both ways. */
  lemma {:induction false} LessTotal(a: string, b: string)
    ensures a != b ==> Less(a, b) || Less(b, a)
    ensures !(Less(a, b) && Less(b, a))
  {
    if |a| > 0 && |b| > 0 && a[0] == b[0] {
      LessTotal(a[1..], b[1..]);
      if a[1..] == b[1..] {
        assert a == [a[0]] + a[1..];
        assert b == [b[0]] + b[1..];
      }
    }
  }

  /** Sorted ascending, allowing equal neighbours. */
  predicate Sorted(s: seq<string>) {
    forall i, j :: 0 <= i < j < |s| ==> LessEq(s[i], s[j])
  }

  /** Sorted ascending without repetitions. */
  predicate StrictlySorted(s: seq<string>) {
    forall i, j :: 0 <= i < j < |s| ==> Less(s[i], s[j])
  }

  predicate NoDuplicates<T(==)>(s: seq<T>) {
    forall i, j :: 0 <= i < j < |s| ==> s[i] != s[j]
  }

  lemma LessEqTransitive(a: string, b: string, c: string)
    requires LessEq(a, b) && LessEq(b, c)
    ensures LessEq(a, c)
  {
    if a != b && b != c {
      LessTransitive(a, b, c);
    }
  }

  lemma SortedTail(s: seq<string>)
    requires Sorted(s) && s != []
    ensures Sorted(s[1..])
  {
    forall i, j | 0 <= i < j < |s[1..]|
      ensures LessEq(s[1..][i], s[1..][j])
    {
      assert s[1..][i] == s[i + 1] && s[1..][j] == s[j + 1];
    }
  }

  /** A sorted list stays sorted when an element that precedes all of it is put in front. */
  lemma SortedCons(y: string, t: seq<string>)
    requires Sorted(t)
    requires forall j :: 0 <= j < |t| ==> LessEq(y, t[j])
    ensures Sorted([y] + t)
  {
    var r := [y] + t;
    forall i, j | 0 <= i < j < |r|
      ensures LessEq(r[i], r[j])
    {
      assert r[j] == t[j - 1];
      if i > 0 {
        assert r[i] == t[i - 1];
      }
    }
  }

  /** An element not after the head of a sorted list precedes all of it. */
  lemma PrecedesSorted(x: string, s: seq<string>)
    requires Sorted(s) && s != [] && LessEq(x, s[0])
    ensures forall j :: 0 <= j < |s| ==> LessEq(x, s[j])
  {
    forall j | 0 <= j < |s|
      ensures LessEq(x, s[j])
    {
      if j > 0 {
        LessEqTransitive(x, s[0], s[j]);
      }
    }
  }

  /** The head of a sorted list precedes every element of a list made of its tail and a later `x`. */
  lemma HeadPrecedesInsert(x: string, s: seq<string>, tail: seq<string>)
    requires Sorted(s) && s != [] && LessEq(s[0], x)
    requires multiset(tail) == multiset(s[1..]) + multiset{x}
    ensures forall j :: 0 <= j < |tail| ==> LessEq(s[0], tail[j])
  {
    forall j | 0 <= j < |tail|
      ensures LessEq(s[0], tail[j])
    {
      var y := tail[j];
      assert y in multiset(tail);
      if y != x {
        assert y in multiset(s[1..]);
        var k :| 0 <= k < |s[1..]| && s[1..][k] == y;
        assert s[k + 1] == y;
      }
    }
  }

  /** Insert `x` into the sorted list `s` before the first element it does not follow. */
  function Insert(x: string, s: seq<string>): (r: seq<string>)
    requires Sorted(s)
    ensures Sorted(r)
    ensures multiset(r) == multiset(s) + multiset{x}
  {
    if s == [] then [x]
    else if LessEq(x, s[0]) then
      PrecedesSorted(x, s);
      SortedCons(x, s);
      [x] + s
    else
      LessTotal(x, s[0]);
      SortedTail(s);
      var tail := Insert(x, s[1..]);
      HeadPrecedesInsert(x, s, tail);
      SortedCons(s[0], tail);
      assert s == [s[0]] + s[1..];
      [s[0]] + tail
  }

  /** `Array.prototype.sort()` on strings, as insertion sort: sorted and a permutation of the input. */
  function Sort(s: seq<string>): (r: seq<string>)
    ensures Sorted(r)
    ensures multiset(r) == multiset(s)
  {
    if s == [] then []
    else
      assert s == [s[0]] + s[1..];
      Insert(s[0], Sort(s[1..]))
  }

  /** A sorted list without repetitions is strictly sorted. */
  lemma SortedDistinctIsStrict(s: seq<string>)
    requires Sorted(s) && NoDuplicates(s)
    ensures StrictlySorted(s)
  {
  }

  /** A permutation of a list without repetitions has none either. */
  lemma {:induction false} PermutationKeepsNoDuplicates(a: seq<string>, b: seq<string>)
    requires multiset(a) == multiset(b) && NoDuplicates(a)
    ensures NoDuplicates(b)
  {
    forall i, j | 0 <= i < j < |b| ensures b[i] != b[j] {
      if b[i] == b[j] {
        TwoOccurrences(b, i, j);
        MultisetCountAtMostOne(a, b[i]);
      }
    }
  }

  lemma TwoOccurrences(b: seq<string>, i: nat, j: nat)
    requires i < j < |b| && b[i] == b[j]
    ensures multiset(b)[b[i]] >= 2
  {
    var x := b[i];
    assert b == b[..j] + b[j..];
    assert b[..j] == b[..i] + b[i..j] && b[i..j][0] == x;
    assert b[j..][0] == x;
    assert multiset(b[..j])[x] >= 1;
    assert multiset(b[j..])[x] >= 1;
  }

  lemma {:induction false} MultisetCountAtMostOne(a: seq<string>, x: string)
    requires NoDuplicates(a)
    ensures multiset(a)[x] <= 1
  {
    if a != [] {
      MultisetCountAtMostOne(a[1..], x);
      assert a == [a[0]] + a[1..];
      if a[0] == x {
        assert x !in a[1..];
      }
    }
  }

  /** Two strictly sorted lists with the same elements are equal: any correct sort gives what `Sort` gives. */
  lemma {:induction false} StrictlySortedUnique(a: seq<string>, b: seq<string>)
    requires StrictlySorted(a) && StrictlySorted(b)
    requires forall x :: x in a <==> x in b
    ensures a == b
  {
    if a != [] { assert a[0] in a; }
    if b != [] { assert b[0] in b; }
    if a != [] && b != [] {
      assert a[0] in a && b[0] in b;
      var ja :| 0 <= ja < |a| && a[ja] == b[0];
      var jb :| 0 <= jb < |b| && b[jb] == a[0];
      if a[0] != b[0] {
        assert ja != 0 && jb != 0;
        assert Less(a[0], b[0]) && Less(b[0], a[0]);
        LessTotal(a[0], b[0]);
        assert false;
      }
      forall x ensures x in a[1..] <==> x in b[1..] {
        if x in a[1..] {
          var i :| 0 <= i < |a[1..]| && a[1..][i] == x;
          assert Less(a[0], a[i + 1]);
          LessIrreflexive(x);
          assert x in b;
          var k :| 0 <= k < |b| && b[k] == x;
          assert k != 0;
          assert b[1..][k - 1] == x;
        }
        if x in b[1..] {
          var i :| 0 <= i < |b[1..]| && b[1..][i] == x;
          assert Less(b[0], b[i + 1]);
          LessIrreflexive(x);
          assert x in a;
          var k :| 0 <= k < |a| && a[k] == x;
          assert k != 0;
          assert a[1..][k - 1] == x;
        }
      }
      StrictlySortedUnique(a[1..], b[1..]);
      assert a == [a[0]] + a[1..];
      assert b == [b[0]] + b[1..];
    }
  }
}
