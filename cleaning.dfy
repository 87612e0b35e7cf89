/**
 * `cleanTextForEmbedding` of the ingestion worker: every `http://` or
 * `https://` run of non-whitespace becomes the literal `[URL]`, every character
 * outside the allow-list becomes a space, whitespace runs collapse to one space,
 * the ends are trimmed, and the result is cut to 2048 characters.
 */
module Cleaning {
  import opened Text
  import Seqs

  const MaxLength: nat := 2048
  const UrlPlaceholder: string := "[URL]"

  /** The punctuation the allow-list keeps: `. , ? ! ; : ( ) [ ] { } ' " -`. */
  predicate IsAllowedPunctuation(c: char) {
    || c == '.' || c == ',' || c == '?' || c == '!' || c == ';' || c == ':'
    || c == '(' || c == ')' || c == '[' || c == ']' || c == '{' || c == '}'
    || c == '\'' || c == '"' || c == '-'
  }

  /** The complement of the character class `[^\w\s.,?!;:()\[\]{}'""-]`. */
  predicate IsAllowed(c: char) {
    IsWordChar(c) || IsSpace(c) || IsAllowedPunctuation(c)
  }

  /** The characters a cleaned string is made of. */
  predicate IsCleanChar(c: char) {
    IsWordChar(c) || c == ' ' || IsAllowedPunctuation(c)
  }

  /** Every whitespace character is a plain space and no two spaces are adjacent. */
  predicate SingleSpaced(s: string) {
    && (forall i :: 0 <= i < |s| ==> IsSpace(s[i]) ==> s[i] == ' ')
    && (forall i :: 0 < i < |s| ==> !(s[i - 1] == ' ' && s[i] == ' '))
  }

  /** The regular expression `https?:\/\/[^\s]+` matches at the start of `s`. */
  predicate UrlAt(s: string) {
    || (StartsWith(s, "http://") && |s| > 7 && !IsSpace(s[7]))
    || (StartsWith(s, "https://") && |s| > 8 && !IsSpace(s[8]))
  }

  /** The length of the longest whitespace-free prefix: the greedy `[^\s]+`. */
  function NonSpaceRun(s: string): (n: nat)
    ensures n <= |s|
    ensures forall i :: 0 <= i < n ==> !IsSpace(s[i])
    ensures n < |s| ==> IsSpace(s[n])
  {
    if s == [] || IsSpace(s[0]) then 0 else 1 + NonSpaceRun(s[1..])
  }

  /** `text.replace(/https?:\/\/[^\s]+/g, '[URL]')`: scans left to right and
      replaces each match, which runs up to the next whitespace. */
  function ReplaceUrls(s: string): string
    decreases |s|
  {
    if s == [] then []
    else if UrlAt(s) then
      assert !IsSpace(s[0]) by { assert s[0] == s[..7][0] == 'h'; }
      UrlPlaceholder + ReplaceUrls(s[NonSpaceRun(s)..])
    else [s[0]] + ReplaceUrls(s[1..])
  }

  /** `text.replace(/[^\w\s.,?!;:()\[\]{}'""-]/g, ' ')` */
  function ReplaceDisallowed(s: string): (r: string)
    ensures |r| == |s|
    ensures forall i :: 0 <= i < |s| ==> r[i] == if IsAllowed(s[i]) then s[i] else ' '
  {
    seq(|s|, i requires 0 <= i < |s| => if IsAllowed(s[i]) then s[i] else ' ')
  }

  /** `text.replace(/\s+/g, ' ')` */
  function Collapse(s: string): string
    decreases |s|
  {
    if s == [] then []
    else if IsSpace(s[0]) then
      assert |TrimStart(s)| < |s| by { assert TrimStart(s) != s; }
      " " + Collapse(TrimStart(s))
    else [s[0]] + Collapse(s[1..])
  }

  /** The text before the length cut: URL replacement, character filter,
      whitespace collapse and trim. */
  function Normalize(text: string): string {
    Trim(Collapse(ReplaceDisallowed(ReplaceUrls(text))))
  }

  /** `cleanTextForEmbedding(text)` */
  function CleanTextForEmbedding(text: string): (r: string)
    ensures |r| <= MaxLength
    ensures text == "" ==> r == ""
    ensures |Normalize(text)| <= MaxLength ==> r == Normalize(text)
    ensures |Normalize(text)| > MaxLength ==> r == Normalize(text)[..MaxLength]
  {
    if text == "" then ""
    else
      var n := Normalize(text);
      if |n| > MaxLength then n[..MaxLength] else n
  }

  // ---------------------------------------------------------------------------
  // URL replacement

  /** Text in which no URL starts is left as it is. */
  lemma {:induction false} ReplaceUrlsIdentity(s: string)
    requires forall i :: 0 <= i <= |s| ==> !UrlAt(s[i..])
    ensures ReplaceUrls(s) == s
  {
    if s != [] {
      assert !UrlAt(s[0..]) by { assert s[0..] == s; }
      forall i | 0 <= i <= |s[1..]| ensures !UrlAt(s[1..][i..]) {
        assert s[1..][i..] == s[i + 1..];
      }
      ReplaceUrlsIdentity(s[1..]);
    }
  }

  lemma ReplaceUrlsHead(t: string)
    requires t != []
    ensures ReplaceUrls(t) != []
    ensures IsSpace(ReplaceUrls(t)[0]) <==> IsSpace(t[0])
  {
    if UrlAt(t) {
      assert t[0] == t[..7][0] == 'h';
    }
  }

  /** After `ReplaceUrls` no URL is left anywhere: the global replace leaves
      no match behind, including one that a replacement could have completed. */
  lemma {:induction false} ReplaceUrlsLeavesNoUrl(s: string)
    ensures forall i :: 0 <= i <= |ReplaceUrls(s)| ==> !UrlAt(ReplaceUrls(s)[i..])
  {
    var o := ReplaceUrls(s);
    if s == [] {
    } else if UrlAt(s) {
      var rest := s[NonSpaceRun(s)..];
      ReplaceUrlsLeavesNoUrl(rest);
      var o' := ReplaceUrls(rest);
      assert o == UrlPlaceholder + o';
      forall i | 0 <= i <= |o| ensures !UrlAt(o[i..]) {
        if i < 5 {
          assert o[i..][0] == o[i] != 'h';
          assert o[i..] == [] || !StartsWith(o[i..], "http://");
        } else {
          assert o[i..] == o'[i - 5..];
        }
      }
    } else {
      var t := s[1..];
      ReplaceUrlsLeavesNoUrl(t);
      var o' := ReplaceUrls(t);
      assert o == [s[0]] + o';
      forall i | 0 <= i <= |o| ensures !UrlAt(o[i..]) {
        if i > 0 {
          assert o[i..] == o'[i - 1..];
        } else {
          assert o[0..] == o;
          KeptCharUrl(s);
        }
      }
    }
  }

  /** A replacement output that starts with neither `h` nor `[` up to `k`
      copied its input up to `k`. */
  lemma {:induction false} ReplaceUrlsPrefix(t: string, k: nat)
    requires k <= |ReplaceUrls(t)|
    requires forall j :: 0 <= j < k ==> ReplaceUrls(t)[j] != 'h' && ReplaceUrls(t)[j] != '['
    ensures k <= |t| && ReplaceUrls(t) == t[..k] + ReplaceUrls(t[k..])
  {
    if k > 0 {
      ReplaceUrlsStep(t);
      var rest := ReplaceUrls(t[1..]);
      forall j | 0 <= j < k - 1 ensures rest[j] != 'h' && rest[j] != '[' {
        assert rest[j] == ReplaceUrls(t)[j + 1];
      }
      ReplaceUrlsPrefix(t[1..], k - 1);
      ConsPrefix(t, k, rest, ReplaceUrls(t[1..][k - 1..]));
    } else {
      assert t[..0] == [] && t[0..] == t;
    }
  }

  lemma ConsPrefix<T>(t: seq<T>, k: nat, rest: seq<T>, tail: seq<T>)
    requires 0 < k <= |t|
    requires rest == t[1..][..k - 1] + tail
    ensures [t[0]] + rest == t[..k] + tail
    ensures t[1..][k - 1..] == t[k..]
  {
    assert [t[0]] + t[1..][..k - 1] == t[..k];
  }

  /** The first step of the replacement: a match starts the output with the
      placeholder, anything else is copied. */
  lemma ReplaceUrlsStep(t: string)
    requires t != []
    ensures |ReplaceUrls(t)| > 0
    ensures UrlAt(t) ==> ReplaceUrls(t)[0] == '['
    ensures !UrlAt(t) ==> ReplaceUrls(t) == [t[0]] + ReplaceUrls(t[1..])
  {
  }

  /** If the output after a kept first character starts a URL, the input
      already started one there. */
  lemma KeptCharUrl(s: string)
    requires s != []
    ensures UrlAt([s[0]] + ReplaceUrls(s[1..])) ==> UrlAt(s)
  {
    var o := [s[0]] + ReplaceUrls(s[1..]);
    if StartsWith(o, "https://") && |o| > 8 && !IsSpace(o[8]) {
      KeptCharScheme(s, "https://");
    }
    if StartsWith(o, "http://") && |o| > 7 && !IsSpace(o[7]) {
      KeptCharScheme(s, "http://");
    }
  }

  /** The same for one scheme prefix, whose characters after the first are
      neither `h` nor `[`. */
  lemma KeptCharScheme(s: string, scheme: string)
    requires s != [] && |scheme| > 0
    requires forall j :: 1 <= j < |scheme| ==> scheme[j] != 'h' && scheme[j] != '['
    requires var o := [s[0]] + ReplaceUrls(s[1..]);
             StartsWith(o, scheme) && |o| > |scheme| && !IsSpace(o[|scheme|])
    ensures StartsWith(s, scheme) && |s| > |scheme| && !IsSpace(s[|scheme|])
  {
    var n := |scheme|;
    var t := s[1..];
    var o' := ReplaceUrls(t);
    var o := [s[0]] + o';
    SchemeTailCopied(s, scheme);
    ReplaceUrlsPrefix(t, n - 1);
    assert t[n - 1..] == s[n..];
    SchemeBeforeRest(s, scheme);
  }

  /** The output is the first character, the copied scheme tail and the
      replacement of the rest; so the input starts with the scheme too, and
      the character after it is not whitespace. */
  lemma SchemeBeforeRest(s: string, scheme: string)
    requires 0 < |scheme| <= |s|
    requires var o := [s[0]] + (s[1..][..|scheme| - 1] + ReplaceUrls(s[|scheme|..]));
             StartsWith(o, scheme) && |o| > |scheme| && !IsSpace(o[|scheme|])
    ensures StartsWith(s, scheme) && |s| > |scheme| && !IsSpace(s[|scheme|])
  {
    var n := |scheme|;
    var u := s[n..];
    var o := [s[0]] + (s[1..][..n - 1] + ReplaceUrls(u));
    assert ReplaceUrls(u) != [];
    ReplaceUrlsHead(u);
    assert ReplaceUrls(u)[0] == o[n];
    assert s[..n] == [s[0]] + s[1..][..n - 1] == o[..n];
  }

  /** The output characters under the scheme's tail are the scheme's, so
      none of them is `h` or `[`. */
  lemma SchemeTailCopied(s: string, scheme: string)
    requires s != [] && |scheme| > 0
    requires forall j :: 1 <= j < |scheme| ==> scheme[j] != 'h' && scheme[j] != '['
    requires StartsWith([s[0]] + ReplaceUrls(s[1..]), scheme)
    ensures |scheme| - 1 <= |ReplaceUrls(s[1..])|
    ensures forall j :: 0 <= j < |scheme| - 1 ==> ReplaceUrls(s[1..])[j] != 'h' && ReplaceUrls(s[1..])[j] != '['
  {
    var o' := ReplaceUrls(s[1..]);
    var o := [s[0]] + o';
    forall j | 0 <= j < |scheme| - 1 ensures o'[j] != 'h' && o'[j] != '[' {
      assert o'[j] == o[j + 1] == o[..|scheme|][j + 1] == scheme[j + 1];
    }
  }

  // ---------------------------------------------------------------------------
  // Whitespace collapse

  predicate NotSpace(c: char) {
    !IsSpace(c)
  }

  /** After collapsing, every whitespace character is a single plain space; the
      other characters come from the input; a leading space stays a leading space. */
  lemma {:induction false} CollapseShape(s: string)
    ensures SingleSpaced(Collapse(s))
    ensures forall i :: 0 <= i < |Collapse(s)| ==>
              Collapse(s)[i] == ' ' || (!IsSpace(Collapse(s)[i]) && Collapse(s)[i] in s)
    ensures Collapse(s) == [] <==> s == []
    ensures s != [] ==> (Collapse(s)[0] == ' ' <==> IsSpace(s[0]))
  {
    if s == [] {
    } else if IsSpace(s[0]) {
      var t := TrimStart(s);
      CollapseShape(t);
      assert Collapse(s) == " " + Collapse(t);
      assert forall x :: x in t ==> x in s;
    } else {
      CollapseShape(s[1..]);
      assert Collapse(s) == [s[0]] + Collapse(s[1..]);
      assert forall x :: x in s[1..] ==> x in s;
    }
  }

  /** Collapsing changes whitespace only: the non-whitespace characters are
      the same, in the same order. */
  lemma {:induction false} CollapseKeepsText(s: string)
    ensures Seqs.Filter(NotSpace, Collapse(s)) == Seqs.Filter(NotSpace, s)
  {
    if s == [] {
    } else if IsSpace(s[0]) {
      var t := TrimStart(s);
      CollapseKeepsText(t);
      LeadingSpaceDropped(Collapse(t));
      TrimStartSpaces(s);
      DropSpaces(s, |s| - |t|);
    } else {
      CollapseKeepsText(s[1..]);
      assert ([s[0]] + Collapse(s[1..]))[1..] == Collapse(s[1..]);
    }
  }

  lemma LeadingSpaceDropped(c: string)
    ensures Seqs.Filter(NotSpace, " " + c) == Seqs.Filter(NotSpace, c)
  {
    Seqs.FilterAppend(NotSpace, " ", c);
  }

  /** Dropping leading whitespace keeps the non-whitespace characters. */
  lemma DropSpaces(s: string, k: nat)
    requires k <= |s|
    requires forall i :: 0 <= i < k ==> IsSpace(s[i])
    ensures Seqs.Filter(NotSpace, s) == Seqs.Filter(NotSpace, s[k..])
  {
    Seqs.FilterDropRejected(NotSpace, s, k);
  }

  /** A string that is already single-spaced is left as it is. */
  lemma {:induction false} CollapseIdentity(s: string)
    requires SingleSpaced(s)
    ensures Collapse(s) == s
  {
    if s != [] {
      assert SingleSpaced(s[1..]);
      CollapseIdentity(s[1..]);
      if IsSpace(s[0]) {
        assert |s| > 1 ==> !IsSpace(s[1]);
        assert TrimStart(s) == TrimStart(s[1..]) == s[1..];
      }
    }
  }

  // ---------------------------------------------------------------------------
  // The cleaned output

  /** What `cleanTextForEmbedding` can return: allowed characters only, single
      spaces, no leading space and at most 2048 characters. */
  predicate IsCleanPrefix(s: string) {
    && |s| <= MaxLength
    && (forall i :: 0 <= i < |s| ==> IsCleanChar(s[i]))
    && SingleSpaced(s)
    && (s != [] ==> s[0] != ' ')
  }

  /** Every character of the text before the cut is a clean character, its
      spaces are single, and it neither starts nor ends with a space. */
  lemma NormalizeShape(text: string)
    ensures var n := Normalize(text);
            && (forall i :: 0 <= i < |n| ==> IsCleanChar(n[i]))
            && SingleSpaced(n)
            && (n != [] ==> n[0] != ' ' && n[|n| - 1] != ' ')
  {
    var d := ReplaceDisallowed(ReplaceUrls(text));
    DisallowedShape(ReplaceUrls(text));
    CollapseClean(d);
    TrimShape(Collapse(d));
  }

  lemma TrimShape(c: string)
    requires forall i :: 0 <= i < |c| ==> IsCleanChar(c[i])
    requires SingleSpaced(c)
    ensures var n := Trim(c);
            && (forall i :: 0 <= i < |n| ==> IsCleanChar(n[i]))
            && SingleSpaced(n)
            && (n != [] ==> n[0] != ' ' && n[|n| - 1] != ' ')
  {
    var n := Trim(c);
    SliceShape(c, |c| - |TrimStart(c)|, n);
  }

  lemma DisallowedShape(u: string)
    ensures forall i :: 0 <= i < |u| ==> IsSpace(ReplaceDisallowed(u)[i]) || IsCleanChar(ReplaceDisallowed(u)[i])
  {
  }

  lemma CollapseClean(d: string)
    requires forall i :: 0 <= i < |d| ==> IsSpace(d[i]) || IsCleanChar(d[i])
    ensures forall i :: 0 <= i < |Collapse(d)| ==> IsCleanChar(Collapse(d)[i])
    ensures SingleSpaced(Collapse(d))
  {
    var c := Collapse(d);
    CollapseShape(d);
    forall i | 0 <= i < |c| ensures IsCleanChar(c[i]) {
      if c[i] != ' ' {
        var j :| 0 <= j < |d| && d[j] == c[i];
      }
    }
  }

  lemma SliceShape(c: string, k: nat, n: string)
    requires k + |n| <= |c| && n == c[k..k + |n|]
    requires forall i :: 0 <= i < |c| ==> IsCleanChar(c[i])
    requires SingleSpaced(c)
    ensures forall i :: 0 <= i < |n| ==> IsCleanChar(n[i])
    ensures SingleSpaced(n)
  {
    forall i | 0 < i < |n| ensures !(n[i - 1] == ' ' && n[i] == ' ') {
      assert n[i - 1] == c[k + i - 1] && n[i] == c[k + i];
    }
  }

  /** Every output character is an ASCII word character, a space or allowed
      punctuation; spaces are single and never lead; a trailing space is left
      only when the 2048-character cut fell on it. */
  lemma CleanOutputShape(text: string)
    ensures IsCleanPrefix(CleanTextForEmbedding(text))
    ensures var r := CleanTextForEmbedding(text);
            r != [] && r[|r| - 1] == ' ' ==> |Normalize(text)| > MaxLength
  {
    NormalizeShape(text);
    var n := Normalize(text);
    if |n| > MaxLength && text != "" {
      assert n[0..MaxLength] == n[..MaxLength];
      SliceShape(n, 0, n[..MaxLength]);
    }
  }

  lemma CleanCharNotSlash(c: char)
    requires IsCleanChar(c)
    ensures c != '/'
  {
  }

  /** No `/` survives, so no `http://` or `https://` URL is left in the output. */
  lemma CleanHasNoUrl(text: string)
    ensures forall i :: 0 <= i < |CleanTextForEmbedding(text)| ==> CleanTextForEmbedding(text)[i] != '/'
    ensures forall i :: 0 <= i <= |CleanTextForEmbedding(text)| ==> !UrlAt(CleanTextForEmbedding(text)[i..])
  {
    var r := CleanTextForEmbedding(text);
    CleanOutputShape(text);
    forall i | 0 <= i < |r| ensures r[i] != '/' {
      CleanCharNotSlash(r[i]);
    }
    NoSlashNoUrl(r);
  }

  lemma NoSlashNoUrl(s: string)
    requires forall i :: 0 <= i < |s| ==> s[i] != '/'
    ensures forall i :: 0 <= i <= |s| ==> !UrlAt(s[i..])
  {
    forall i | 0 <= i <= |s| ensures !UrlAt(s[i..]) {
      var t := s[i..];
      if |t| > 7 {
        assert t[5] == s[i + 5] != '/';
        assert t[..7][5] == t[5] && "http://"[5] == '/';
        assert t[6] == s[i + 6] != '/';
        assert t[..8][6] == t[6] && "https://"[6] == '/';
      }
    }
  }

  /** Cleaning a string of the output's shape gives it back, minus a trailing
      space if it has one. */
  lemma CleanOfCleanPrefix(s: string)
    requires IsCleanPrefix(s)
    ensures CleanTextForEmbedding(s) == if s != [] && s[|s| - 1] == ' ' then s[..|s| - 1] else s
  {
    NoSlashNoUrl(s);
    ReplaceUrlsIdentity(s);
    assert ReplaceDisallowed(s) == s;
    CollapseIdentity(s);
    if s != [] && s[|s| - 1] == ' ' {
      var p := s[..|s| - 1];
      assert p != [] && !IsSpace(p[|p| - 1]) && !IsSpace(p[0]) by {
        assert |s| > 1;
        assert s[|s| - 2] != ' ';
      }
      assert TrimStart(s) == s;
      assert TrimEnd(s) == TrimEnd(p) == p;
    }
  }

  /** Cleaning is idempotent on its own output unless that output ends with a
      space (left by the length cut), in which case the second pass drops it. */
  lemma CleanIdempotent(text: string)
    ensures var r := CleanTextForEmbedding(text);
            CleanTextForEmbedding(r) == if r != [] && r[|r| - 1] == ' ' then r[..|r| - 1] else r
  {
    CleanOutputShape(text);
    CleanOfCleanPrefix(CleanTextForEmbedding(text));
  }
}
