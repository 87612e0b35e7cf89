/**
 * String primitives with JavaScript's meaning: the `\s` class and `trim`,
 * `\w`, `startsWith`/`endsWith`/`includes`, `split` and `join` with a
 * string separator, and the decimal rendering of integers in template
 * strings. Strings are sequences of characters.
 */
module Text {
  import opened Wrappers

  /** A value that was thrown: an `Error` with its message, or anything else. */
  datatype Thrown = ErrorObject(message: string) | NonError

  /** JavaScript's `\s`, which is also the set `String.prototype.trim` removes
      (WhiteSpace and LineTerminator of ECMAScript). */
  predicate IsSpace(c: char) {
    || c == ' ' || c == '\t' || c == '\n' || c == '\U{000B}' || c == '\U{000C}' || c == '\r'
    || c == '\U{00A0}' || c == '\U{1680}' || ('\U{2000}' <= c <= '\U{200A}')
    || c == '\U{2028}' || c == '\U{2029}' || c == '\U{202F}' || c == '\U{205F}'
    || c == '\U{3000}' || c == '\U{FEFF}'
  }

  /** JavaScript's `\w` without the `u` flag: ASCII letters, digits and `_`. */
  predicate IsWordChar(c: char) {
    ('a' <= c <= 'z') || ('A' <= c <= 'Z') || ('0' <= c <= '9') || c == '_'
  }

  /** Neither the first nor the last character is whitespace. */
  predicate Unpadded(s: string) {
    s == [] || (!IsSpace(s[0]) && !IsSpace(s[|s| - 1]))
  }

  /** `r` is the slice of `s` that starts at index `k`. */
  predicate SliceAt(s: string, k: int, r: string) {
    0 <= k && k + |r| <= |s| && r == s[k..k + |r|]
  }

  predicate IsBlank(s: string) {
    forall i :: 0 <= i < |s| ==> IsSpace(s[i])
  }

  /** JavaScript truthiness of an optional string: present and non-empty. */
  predicate Truthy(s: Option<string>) {
    s.Some? && s.value != ""
  }

  predicate StartsWith(s: string, prefix: string) {
    |prefix| <= |s| && s[..|prefix|] == prefix
  }

  predicate EndsWith(s: string, suffix: string) {
    |suffix| <= |s| && s[|s| - |suffix|..] == suffix
  }

  /** `sub` occurs in `s` starting at index `i`. */
  predicate OccursAt(s: string, sub: string, i: int) {
    0 <= i && i + |sub| <= |s| && s[i..i + |sub|] == sub
  }

  /** `s.includes(sub)` for a non-empty `sub`: some occurrence exists. */
  predicate Contains(s: string, sub: string)
    requires |sub| > 0
  {
    IndexOf(s, sub).Some?
  }

  /** Removes the leading whitespace. */
  function TrimStart(s: string): (r: string)
    ensures |r| <= |s| && r == s[|s| - |r|..]
    ensures r == [] || !IsSpace(r[0])
  {
    if s != [] && IsSpace(s[0]) then TrimStart(s[1..]) else s
  }

  /** Removes the trailing whitespace. */
  function TrimEnd(s: string): (r: string)
    ensures |r| <= |s| && r == s[..|r|]
    ensures r == [] || !IsSpace(r[|r| - 1])
  {
    if s != [] && IsSpace(s[|s| - 1]) then TrimEnd(s[..|s| - 1]) else s
  }

  /** What `TrimStart` removes is whitespace. */
  lemma {:induction false} TrimStartSpaces(s: string)
    ensures forall i :: 0 <= i < |s| - |TrimStart(s)| ==> IsSpace(s[i])
  {
    if s != [] && IsSpace(s[0]) {
      TrimStartSpaces(s[1..]);
      forall i | 1 <= i < |s| - |TrimStart(s)| ensures IsSpace(s[i]) {
        assert s[i] == s[1..][i - 1];
      }
    }
  }

  /** What `TrimEnd` removes is whitespace. */
  lemma {:induction false} TrimEndSpaces(s: string)
    ensures forall i :: |TrimEnd(s)| <= i < |s| ==> IsSpace(s[i])
  {
    if s != [] && IsSpace(s[|s| - 1]) {
      TrimEndSpaces(s[..|s| - 1]);
      forall i | |TrimEnd(s)| <= i < |s| - 1 ensures IsSpace(s[i]) {
        assert s[i] == s[..|s| - 1][i];
      }
    }
  }

  /** `s.trim()`: the slice of `s` between its leading and trailing whitespace. */
  function Trim(s: string): (r: string)
    ensures SliceAt(s, |s| - |TrimStart(s)|, r)
    ensures Unpadded(r)
    ensures r == [] <==> IsBlank(s)
    ensures Unpadded(s) ==> r == s
  {
    TrimFacts(s);
    TrimEnd(TrimStart(s))
  }

  /** The facts `Trim` promises, gathered about its body. */
  lemma TrimFacts(s: string)
    ensures SliceAt(s, |s| - |TrimStart(s)|, TrimEnd(TrimStart(s)))
    ensures Unpadded(TrimEnd(TrimStart(s)))
    ensures TrimEnd(TrimStart(s)) == [] <==> IsBlank(s)
    ensures Unpadded(s) ==> TrimEnd(TrimStart(s)) == s
  {
    TrimBlank(s);
    TrimSlice(s);
    TrimUnpadded(s);
    TrimEnds(s);
  }

  lemma TrimEnds(s: string)
    ensures var r := TrimEnd(TrimStart(s));
            r == [] || (!IsSpace(r[0]) && !IsSpace(r[|r| - 1]))
  {
    TrimBlank(s);
  }

  lemma TrimSlice(s: string)
    ensures SliceAt(s, |s| - |TrimStart(s)|, TrimEnd(TrimStart(s)))
  {
    var t := TrimStart(s);
    var r := TrimEnd(t);
    SliceOfSlice(s, |s| - |t|, |r|);
  }

  lemma SliceOfSlice<T>(s: seq<T>, k: nat, n: nat)
    requires k + n <= |s|
    ensures s[k..][..n] == s[k..k + n]
  {
  }

  lemma TrimUnpadded(s: string)
    ensures (s == [] || (!IsSpace(s[0]) && !IsSpace(s[|s| - 1]))) ==> TrimEnd(TrimStart(s)) == s
  {
    if s != [] && !IsSpace(s[0]) && !IsSpace(s[|s| - 1]) {
      assert TrimStart(s) == s;
    }
  }

  lemma TrimBlank(s: string)
    ensures TrimEnd(TrimStart(s)) == [] <==> IsBlank(s)
    ensures TrimEnd(TrimStart(s)) != [] ==> TrimEnd(TrimStart(s))[0] == TrimStart(s)[0]
  {
    var t := TrimStart(s);
    var r := TrimEnd(t);
    var k := |s| - |t|;
    TrimStartSpaces(s);
    TrimEndSpaces(t);
    if t != [] {
      assert t[0] == s[k];
      assert !IsSpace(t[0]);
      assert r != [];
      assert !IsBlank(s);
    } else {
      assert forall i :: 0 <= i < |s| - |t| ==> IsSpace(s[i]);
    }
  }

  /** Trimming text that starts and ends with a non-space character changes nothing. */
  lemma TrimKeeps(s: string)
    requires s != [] && !IsSpace(s[0]) && !IsSpace(s[|s| - 1])
    ensures Trim(s) == s
  {
  }

  /** `s.length`: JavaScript counts UTF-16 code units, so a character above
      U+FFFF (a surrogate pair) counts twice. */
  function Utf16Length(s: string): (r: nat)
    ensures |s| <= r <= 2 * |s|
    ensures (forall i :: 0 <= i < |s| ==> s[i] as int <= 0xFFFF) ==> r == |s|
    ensures (forall i :: 0 <= i < |s| ==> s[i] as int > 0xFFFF) ==> r == 2 * |s|
  {
    if s == [] then 0 else (if s[0] as int > 0xFFFF then 2 else 1) + Utf16Length(s[1..])
  }

  /** The first index at which `sep` occurs in `s`. */
  function IndexOf(s: string, sep: string): (r: Option<nat>)
    requires |sep| > 0
    ensures r.Some? ==> OccursAt(s, sep, r.value)
    ensures r.Some? ==> forall j :: 0 <= j < r.value ==> !OccursAt(s, sep, j)
    ensures r.None? ==> forall j :: !OccursAt(s, sep, j)
    decreases |s|
  {
    if |s| < |sep| then None
    else if s[..|sep|] == sep then Some(0)
    else
      match IndexOf(s[1..], sep)
      case None =>
        assert forall j :: 1 <= j ==> OccursAt(s, sep, j) == OccursAt(s[1..], sep, j - 1);
        None
      case Some(k) =>
        assert forall j :: 1 <= j ==> OccursAt(s, sep, j) == OccursAt(s[1..], sep, j - 1);
        Some(k + 1)
  }

  /** `sep` occurs nowhere in `s`. */
  ghost predicate NoOccurrence(s: string, sep: string) {
    forall j :: !OccursAt(s, sep, j)
  }

  /** `s.split(sep)` for a non-empty string separator: the pieces between the
      occurrences of `sep`, found from the left, which join back into `s`. */
  function Split(s: string, sep: string): (r: seq<string>)
    requires |sep| > 0
    ensures |r| > 0
    ensures Join(r, sep) == s
    ensures forall k :: 0 <= k < |r| ==> NoOccurrence(r[k], sep)
    decreases |s|
  {
    match IndexOf(s, sep)
    case None => [s]
    case Some(i) =>
      var rest := Split(s[i + |sep|..], sep);
      PrefixBeforeFirst(s, sep, i);
      assert s == s[..i] + sep + s[i + |sep|..] by {
        assert s[i..i + |sep|] == sep;
      }
      assert ([s[..i]] + rest)[1..] == rest;
      [s[..i]] + rest
  }

  /** `xs.join(sep)` */
  function Join(xs: seq<string>, sep: string): string {
    if |xs| == 0 then ""
    else if |xs| == 1 then xs[0]
    else xs[0] + sep + Join(xs[1..], sep)
  }

  /** The text before the first occurrence of `sep` holds no occurrence. */
  lemma PrefixBeforeFirst(s: string, sep: string, i: nat)
    requires |sep| > 0 && i <= |s|
    requires forall j :: 0 <= j < i ==> !OccursAt(s, sep, j)
    ensures NoOccurrence(s[..i], sep)
  {
    forall j | OccursAt(s[..i], sep, j) ensures OccursAt(s, sep, j) {
      assert s[..i][j..j + |sep|] == s[j..j + |sep|];
    }
  }

  /** A separator one of whose characters never appears in `s` never occurs in `s`. */
  lemma AbsentCharNoOccurrence(s: string, sep: string, i: nat)
    requires i < |sep|
    requires forall k :: 0 <= k < |s| ==> s[k] != sep[i]
    ensures NoOccurrence(s, sep)
  {
    forall j | OccursAt(s, sep, j) ensures s[j + i] == sep[i] {
      assert s[j..j + |sep|][i] == s[j + i];
    }
  }

  lemma IndexOfFirst(s: string, sep: string, k: nat)
    requires |sep| > 0 && OccursAt(s, sep, k)
    requires forall j :: 0 <= j < k ==> s[j] != sep[0]
    ensures IndexOf(s, sep) == Some(k)
  {
    forall j | 0 <= j < k ensures !OccursAt(s, sep, j) {
      if j + |sep| <= |s| {
        assert s[j..j + |sep|][0] == s[j];
      }
    }
  }

  /** `p` ends with a non-empty proper prefix of `sep`, so an occurrence of
      `sep` could start inside `p` and run on past its end. */
  ghost predicate EndsInPartialSep(p: string, sep: string) {
    exists n :: 0 < n < |sep| && EndsWith(p, sep[..n])
  }

  /** Pieces that `sep` can join and `split` take apart again: no piece holds
      `sep`, and no piece but the last ends with the start of `sep`. For
      `"\n\n"` that is: no blank line inside a piece, and no piece but the
      last ending in a line break. */
  ghost predicate Separable(xs: seq<string>, sep: string) {
    && (forall k :: 0 <= k < |xs| ==> NoOccurrence(xs[k], sep))
    && (forall k :: 0 <= k < |xs| - 1 ==> !EndsInPartialSep(xs[k], sep))
  }

  /** Splitting a join gives back the pieces when they are separable. */
  lemma {:induction false} SplitJoin(xs: seq<string>, sep: string)
    requires |sep| > 0 && |xs| > 0
    requires Separable(xs, sep)
    ensures Split(Join(xs, sep), sep) == xs
  {
    if |xs| == 1 {
      assert NoOccurrence(xs[0], sep);
    } else {
      assert NoOccurrence(xs[0], sep) && !EndsInPartialSep(xs[0], sep);
      SplitAtHead(xs[0], sep, Join(xs[1..], sep));
      forall k | 0 <= k < |xs| - 1 ensures xs[1..][k] == xs[k + 1] {
      }
      SplitJoin(xs[1..], sep);
      assert [xs[0]] + xs[1..] == xs;
    }
  }

  /** The first piece ends at the first separator. */
  lemma SplitAtHead(head: string, sep: string, rest: string)
    requires |sep| > 0
    requires NoOccurrence(head, sep) && !EndsInPartialSep(head, sep)
    ensures Split(head + sep + rest, sep) == [head] + Split(rest, sep)
  {
    var s := head + sep + rest;
    assert OccursAt(s, sep, |head|) by {
      assert s[|head|..|head| + |sep|] == sep;
    }
    forall j | 0 <= j < |head|
      ensures OccursAt(s, sep, j) ==>
        OccursAt(head, sep, j) || (|head| - j < |sep| && EndsWith(head, sep[..|head| - j]))
    {
      OccurrenceInHead(head, sep, rest, j);
    }
    assert forall j :: 0 <= j < |head| ==> !OccursAt(s, sep, j);
    assert IndexOf(s, sep) == Some(|head|);
    assert s[..|head|] == head;
    assert s[|head| + |sep|..] == rest;
  }

  /** An occurrence of `sep` that starts inside `head` either lies within
      `head` or starts a proper prefix of `sep` at the end of `head`. */
  lemma OccurrenceInHead(head: string, sep: string, rest: string, j: nat)
    requires j < |head|
    ensures OccursAt(head + sep + rest, sep, j) ==>
      OccursAt(head, sep, j) || (|head| - j < |sep| && EndsWith(head, sep[..|head| - j]))
  {
    var s := head + sep + rest;
    if OccursAt(s, sep, j) {
      if j + |sep| <= |head| {
        assert head[j..j + |sep|] == s[j..j + |sep|];
      } else {
        assert s[j..|head|] == head[j..];
        assert s[j..j + |sep|][..|head| - j] == s[j..|head|];
      }
    }
  }

  /** For a separator of two equal characters, such as `"\n\n"`, the pieces
      `split` returns are separable: a piece ending in that character would
      have put the first occurrence one place earlier. */
  lemma {:induction false} SplitDoubledSeparable(s: string, c: char)
    ensures Separable(Split(s, [c, c]), [c, c])
    decreases |s|
  {
    var sep := [c, c];
    match IndexOf(s, sep)
    case None =>
    case Some(i) =>
      var rest := Split(s[i + 2..], sep);
      SplitDoubledSeparable(s[i + 2..], c);
      assert Split(s, sep) == [s[..i]] + rest;
      assert s[i] == c by {
        assert s[i..i + 2][0] == s[i];
      }
      if i > 0 {
        assert !OccursAt(s, sep, i - 1);
        assert s[i - 1..i + 1] == [s[i - 1], s[i]];
      }
      assert sep[..1] == [c];
      forall n | 0 < n < 2 ensures !EndsWith(s[..i], sep[..n]) {
      }
  }

  /** The text after the last `c`: cutting `s` at a `c` after which no `c`
      follows gives the same two parts, whichever way `s` was built. */
  lemma LastCutUnique(a1: string, b1: string, a2: string, b2: string, c: char)
    requires a1 + [c] + b1 == a2 + [c] + b2
    requires forall i :: 0 <= i < |b1| ==> b1[i] != c
    requires forall i :: 0 <= i < |b2| ==> b2[i] != c
    ensures a1 == a2 && b1 == b2
  {
    var s := a1 + [c] + b1;
    assert s[|a1|] == c;
    assert s[|a2|] == c;
    assert |a1| == |a2|;
    assert a1 == s[..|a1|] && a2 == s[..|a2|];
    assert b1 == s[|a1| + 1..] && b2 == s[|a2| + 1..];
  }

  /** A string is blank exactly when both its halves are. */
  lemma BlankConcat(a: string, b: string)
    ensures IsBlank(a + b) <==> IsBlank(a) && IsBlank(b)
  {
    forall i | 0 <= i < |b| ensures (a + b)[|a| + i] == b[i] {
    }
    forall i | 0 <= i < |a| ensures (a + b)[i] == a[i] {
    }
  }

  /** Joining with a blank separator gives blank text exactly when every piece is blank. */
  lemma {:induction false} JoinBlank(xs: seq<string>, sep: string)
    requires IsBlank(sep)
    ensures IsBlank(Join(xs, sep)) <==> forall k :: 0 <= k < |xs| ==> IsBlank(xs[k])
  {
    if |xs| > 1 {
      JoinBlank(xs[1..], sep);
      BlankConcat(xs[0] + sep, Join(xs[1..], sep));
      BlankConcat(xs[0], sep);
      forall k | 1 <= k < |xs| ensures xs[k] == xs[1..][k - 1] {
      }
    }
  }

  /** The decimal digit for `d`. */
  function DigitChar(d: nat): (c: char)
    requires d < 10
    ensures '0' <= c <= '9'
    ensures c as int - '0' as int == d
  {
    ('0' as int + d) as char
  }

  predicate IsDigits(s: string) {
    forall i :: 0 <= i < |s| ==> '0' <= s[i] <= '9'
  }

  /** Decimal rendering of a natural number, as `${n}` does. */
  function NatToString(n: nat): (r: string)
    ensures |r| > 0 && IsDigits(r)
    ensures |r| == 1 <==> n < 10
  {
    if n < 10 then [DigitChar(n)] else NatToString(n / 10) + [DigitChar(n % 10)]
  }

  /** Distinct numbers render differently. */
  lemma {:induction false} NatToStringInjective(m: nat, n: nat)
    requires NatToString(m) == NatToString(n)
    ensures m == n
  {
    var r := NatToString(m);
    if m >= 10 && n >= 10 {
      assert NatToString(m / 10) == r[..|r| - 1] == NatToString(n / 10);
      NatToStringInjective(m / 10, n / 10);
      assert DigitChar(m % 10) == r[|r| - 1] == DigitChar(n % 10);
    } else {
      assert DigitChar(m) == r[0] == DigitChar(n);
    }
  }

  /** Decimal rendering of an integer, with a leading `-` when negative. */
  function IntToString(i: int): (r: string)
    ensures |r| > 0
    ensures i >= 0 ==> IsDigits(r)
    ensures i < 0 ==> r[0] == '-' && IsDigits(r[1..])
  {
    if i < 0 then "-" + NatToString(-i) else NatToString(i)
  }
}
