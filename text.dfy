/**
 * The string operations the rules are built from, with JavaScript's meaning:
 * `trim`, `includes`, `indexOf`, global literal `replace`, `join`, `toLowerCase`
 * (ASCII part) and the accent stripping done with NFD decomposition.
 */
module Text {
  import opened Wrappers

  // ---------------------------------------------------------------- trimming

  /** The characters `String.prototype.trim` removes (WhiteSpace and LineTerminator of ECMAScript). */
  predicate IsWhitespace(c: char) {
    || c == ' ' || c == '\t' || c == '\n' || c == '\r' || c == '\U{000B}' || c == '\U{000C}'
    || c == '\U{00A0}' || c == '\U{1680}' || ('\U{2000}' <= c <= '\U{200A}')
    || c == '\U{2028}' || c == '\U{2029}' || c == '\U{202F}' || c == '\U{205F}'
    || c == '\U{3000}' || c == '\U{FEFF}'
  }

  /** `s.trimStart()`. */
  function TrimStart(s: string): (r: string)
    ensures |r| <= |s|
    ensures |s| > 0 && IsWhitespace(s[0]) ==> |r| < |s|
  {
    if |s| > 0 && IsWhitespace(s[0]) then TrimStart(s[1..]) else s
  }

  /** `s.trimEnd()`. */
  function TrimEnd(s: string): (r: string)
    ensures |r| <= |s|
  {
    if |s| > 0 && IsWhitespace(s[|s| - 1]) then TrimEnd(s[..|s| - 1]) else s
  }

  /** `TrimStart` cuts exactly the leading whitespace. */
  lemma {:induction false} TrimStartSpec(s: string)
    ensures |TrimStart(s)| <= |s| && TrimStart(s) == s[|s| - |TrimStart(s)|..]
    ensures TrimStart(s) == [] || !IsWhitespace(TrimStart(s)[0])
    ensures forall i :: 0 <= i < |s| - |TrimStart(s)| ==> IsWhitespace(s[i])
  {
    if |s| > 0 && IsWhitespace(s[0]) {
      TrimStartSpec(s[1..]);
      forall i | 1 <= i < |s| - |TrimStart(s)| ensures IsWhitespace(s[i]) {
        assert s[1..][i - 1] == s[i];
      }
    }
  }

  /** `TrimEnd` cuts exactly the trailing whitespace. */
  lemma {:induction false} TrimEndSpec(s: string)
    ensures |TrimEnd(s)| <= |s| && TrimEnd(s) == s[..|TrimEnd(s)|]
    ensures TrimEnd(s) == [] || !IsWhitespace(TrimEnd(s)[|TrimEnd(s)| - 1])
    ensures forall i :: |TrimEnd(s)| <= i < |s| ==> IsWhitespace(s[i])
  {
    if |s| > 0 && IsWhitespace(s[|s| - 1]) {
      TrimEndSpec(s[..|s| - 1]);
      forall i | |TrimEnd(s)| <= i < |s| - 1 ensures IsWhitespace(s[i]) {
        assert s[..|s| - 1][i] == s[i];
      }
    }
  }

  /** `s.trim()`: the longest infix of `s` that neither starts nor ends with whitespace. */
  function Trim(s: string): (r: string)
  {
    TrimEnd(TrimStart(s))
  }

  /** `!s.trim()`: the string is empty once trimmed. */
  predicate IsBlank(s: string) {
    Trim(s) == ""
  }

  /** Trimming keeps a contiguous piece of the input and cuts only whitespace around it. */
  lemma TrimIsInfix(s: string)
    ensures var i := |s| - |TrimStart(s)|; i + |Trim(s)| <= |s| && Trim(s) == s[i..i + |Trim(s)|]
    ensures Trim(s) == [] || (!IsWhitespace(Trim(s)[0]) && !IsWhitespace(Trim(s)[|Trim(s)| - 1]))
  {
    var t := TrimStart(s);
    TrimStartSpec(s);
    TrimEndSpec(t);
    if Trim(s) != [] {
      assert Trim(s)[0] == t[0];
    }
  }

  /** Every character of `Trim(s)` comes from `s`. */
  lemma TrimChars(s: string)
    ensures forall c :: c in Trim(s) ==> c in s
  {
    TrimIsInfix(s);
    var i := |s| - |TrimStart(s)|;
    forall c | c in Trim(s) ensures c in s {
      var k :| 0 <= k < |Trim(s)| && Trim(s)[k] == c;
      assert s[i + k] == c;
    }
  }

  /** A string with no whitespace at either end is its own trim. */
  lemma TrimOfTrimmed(s: string)
    requires s == [] || (!IsWhitespace(s[0]) && !IsWhitespace(s[|s| - 1]))
    ensures Trim(s) == s
  {
  }

  lemma TrimIdempotent(s: string)
    ensures Trim(Trim(s)) == Trim(s)
  {
    TrimIsInfix(s);
    TrimOfTrimmed(Trim(s));
  }

  /** Leading whitespace does not change the trim. */
  lemma TrimLeadingWhitespace(c: char, s: string)
    requires IsWhitespace(c)
    ensures Trim([c] + s) == Trim(s)
  {
    assert ([c] + s)[1..] == s;
  }

  /** Blank means "only whitespace". */
  lemma BlankIffAllWhitespace(s: string)
    ensures IsBlank(s) <==> forall i :: 0 <= i < |s| ==> IsWhitespace(s[i])
  {
    var t := TrimStart(s);
    TrimStartSpec(s);
    TrimEndSpec(t);
    if IsBlank(s) {
      assert |t| == 0;
    } else {
      TrimIsInfix(s);
      assert s[|s| - |t|] == Trim(s)[0];
    }
  }

  // ------------------------------------------------------- optional strings

  /** JavaScript `o || d` for an optional string: absent and "" are both falsy. */
  function OrElse(o: Option<string>, d: string): (r: string)
    ensures r == d || (o.Some? && r == o.value && o.value != "")
    ensures o.Some? && o.value != "" ==> r == o.value
  {
    if o.Some? && o.value != "" then o.value else d
  }

  /** JavaScript truthiness of an optional string. */
  predicate Truthy(o: Option<string>) {
    o.Some? && o.value != ""
  }

  // ------------------------------------------------------ character mapping

  /** `s.replace(/a/g, b)` for one character: every `a` becomes `b`. */
  function ReplaceChar(s: string, a: char, b: char): (r: string)
    ensures |r| == |s|
    ensures forall i :: 0 <= i < |s| ==> r[i] == (if s[i] == a then b else s[i])
  {
    seq(|s|, i requires 0 <= i < |s| => if s[i] == a then b else s[i])
  }

  lemma ReplaceCharAbsent(s: string, a: char, b: char)
    requires a !in s
    ensures ReplaceChar(s, a, b) == s
  {
  }

  lemma ReplaceCharRemoves(s: string, a: char, b: char)
    requires a != b
    ensures a !in ReplaceChar(s, a, b)
  {
  }

  /** ASCII part of `toLowerCase`. */
  function LowerChar(c: char): char {
    if 'A' <= c <= 'Z' then (c as int + 32) as char else c
  }

  /** Unicode combining diacritical marks, the range U+0300..U+036F removed after NFD. */
  predicate IsCombiningMark(c: char) {
    '\U{0300}' <= c <= '\U{036F}'
  }

  /** The base letter NFD leaves for a precomposed Latin-1 letter. */
  function BaseLetter(c: char): char {
    if c < '\U{00C0}' then c else
    match c
    case 'à' => 'a' case 'á' => 'a' case 'â' => 'a' case 'ã' => 'a' case 'ä' => 'a' case 'å' => 'a'
    case 'À' => 'A' case 'Á' => 'A' case 'Â' => 'A' case 'Ã' => 'A' case 'Ä' => 'A' case 'Å' => 'A'
    case 'ç' => 'c' case 'Ç' => 'C'
    case 'è' => 'e' case 'é' => 'e' case 'ê' => 'e' case 'ë' => 'e'
    case 'È' => 'E' case 'É' => 'E' case 'Ê' => 'E' case 'Ë' => 'E'
    case 'ì' => 'i' case 'í' => 'i' case 'î' => 'i' case 'ï' => 'i'
    case 'Ì' => 'I' case 'Í' => 'I' case 'Î' => 'I' case 'Ï' => 'I'
    case 'ñ' => 'n' case 'Ñ' => 'N'
    case 'ò' => 'o' case 'ó' => 'o' case 'ô' => 'o' case 'õ' => 'o' case 'ö' => 'o'
    case 'Ò' => 'O' case 'Ó' => 'O' case 'Ô' => 'O' case 'Õ' => 'O' case 'Ö' => 'O'
    case 'ù' => 'u' case 'ú' => 'u' case 'û' => 'u' case 'ü' => 'u'
    case 'Ù' => 'U' case 'Ú' => 'U' case 'Û' => 'U' case 'Ü' => 'U'
    case 'ý' => 'y' case 'ÿ' => 'y' case 'Ý' => 'Y'
    case _ => c
  }

  /** The combining marks removed, as the regular-expression replace after NFD does. */
  function StripMarks(s: string): string
  {
    if s == [] then []
    else if IsCombiningMark(s[|s| - 1]) then StripMarks(s[..|s| - 1])
    else StripMarks(s[..|s| - 1]) + [s[|s| - 1]]
  }

  /** A string without combining marks loses nothing. */
  lemma {:induction false} StripMarksNone(s: string)
    requires forall i :: 0 <= i < |s| ==> !IsCombiningMark(s[i])
    ensures StripMarks(s) == s
  {
    if s != [] {
      StripMarksNone(s[..|s| - 1]);
    }
  }

  /**
   * `s.normalize("NFD").replace(/[\u0300-\u036f]/g, "").toLowerCase()`:
   * accents dropped, letters lower-cased.
   */
  function Fold(s: string): string
  {
    var t := StripMarks(s);
    seq(|t|, i requires 0 <= i < |t| => LowerChar(BaseLetter(t[i])))
  }

  // ------------------------------------------------------------- searching

  /** `pat` occurs in `s` starting at index `i`. */
  predicate OccursAt(s: string, pat: string, i: int) {
    0 <= i && i + |pat| <= |s| && s[i..i + |pat|] == pat
  }

  /** `s.startsWith(pat)`, compared character by character. */
  predicate StartsWith(s: string, pat: string) {
    pat == [] || (s != [] && s[0] == pat[0] && StartsWith(s[1..], pat[1..]))
  }

  lemma {:induction false} StartsWithIff(s: string, pat: string)
    ensures StartsWith(s, pat) <==> |pat| <= |s| && s[..|pat|] == pat
  {
    if pat != [] && s != [] {
      StartsWithIff(s[1..], pat[1..]);
      if |pat| <= |s| && s[..|pat|] == pat {
        assert s[1..][..|pat| - 1] == s[..|pat|][1..];
      }
      if StartsWith(s, pat) {
        assert s[..|pat|] == [s[0]] + s[1..][..|pat| - 1];
        assert pat == [pat[0]] + pat[1..];
      }
    }
  }

  /** `s.indexOf(pat)`, absent as `None`. */
  function IndexOf(s: string, pat: string): (r: Option<nat>)
    decreases |s|
  {
    if |s| < |pat| then None
    else if StartsWith(s, pat) then Some(0)
    else match IndexOf(s[1..], pat)
      case None => None
      case Some(k) => Some(k + 1)
  }

  /** `IndexOf` finds the first occurrence, and finds none only when there is none. */
  lemma {:induction false} IndexOfSpec(s: string, pat: string)
    ensures IndexOf(s, pat).Some? ==> OccursAt(s, pat, IndexOf(s, pat).value)
    ensures IndexOf(s, pat).Some? ==> forall j :: 0 <= j < IndexOf(s, pat).value ==> !OccursAt(s, pat, j)
    ensures IndexOf(s, pat).None? ==> forall j :: !OccursAt(s, pat, j)
    decreases |s|
  {
    StartsWithIff(s, pat);
    if |s| >= |pat| && s[..|pat|] != pat {
      IndexOfSpec(s[1..], pat);
      forall j | OccursAt(s, pat, j) && j > 0 ensures OccursAt(s[1..], pat, j - 1) {
        assert s[1..][j - 1..j - 1 + |pat|] == s[j..j + |pat|];
      }
      match IndexOf(s[1..], pat)
      case None =>
      case Some(k) =>
        assert s[1..][k..k + |pat|] == s[k + 1..k + 1 + |pat|];
    }
  }

  /** `s.includes(pat)`: some position where `pat` occurs. */
  predicate Contains(s: string, pat: string) {
    exists j | 0 <= j <= |s| - |pat| :: OccursAt(s, pat, j)
  }

  /** The first occurrence is the one with no occurrence before it. */
  lemma IndexOfIsFirst(s: string, pat: string, k: nat)
    requires OccursAt(s, pat, k)
    requires forall j :: 0 <= j < k ==> !OccursAt(s, pat, j)
    ensures IndexOf(s, pat) == Some(k)
  {
    IndexOfSpec(s, pat);
  }

  /** `s.indexOf(pat) >= 0` exactly when `s.includes(pat)`. */
  lemma IndexOfFoundIff(s: string, pat: string)
    ensures IndexOf(s, pat).Some? <==> Contains(s, pat)
  {
    IndexOfSpec(s, pat);
  }

  /** An occurrence anywhere makes `includes` true. */
  lemma ContainsAt(s: string, pat: string, k: nat)
    requires OccursAt(s, pat, k)
    ensures Contains(s, pat)
  {
  }

  /** A string lacking one of the pattern's characters cannot contain the pattern. */
  lemma NotContainsMissingChar(s: string, pat: string, c: char)
    requires c in pat && c !in s
    ensures !Contains(s, pat)
  {
    IndexOfSpec(s, pat);
    var m :| 0 <= m < |pat| && pat[m] == c;
    forall j | 0 <= j ensures !OccursAt(s, pat, j) {
      if j + |pat| <= |s| {
        assert s[j..j + |pat|][m] == s[j + m];
      }
    }
  }

  // ----------------------------------------------------------- replacing

  /**
   * `s.replace(new RegExp(pat, 'g'), v)` for a pattern with no special characters:
   * scanning left to right, each occurrence of `pat` is replaced and scanning goes on
   * after it; the replacement text is never rescanned.
   */
  function ReplaceAll(s: string, pat: string, v: string): string
    requires |pat| > 0
    decreases |s|
  {
    if s == [] then []
    else if StartsWith(s, pat) then StartsWithIff(s, pat); v + ReplaceAll(s[|pat|..], pat, v)
    else [s[0]] + ReplaceAll(s[1..], pat, v)
  }

  /** A string without `pat` is left alone. */
  lemma {:induction false} ReplaceAllAbsent(s: string, pat: string, v: string)
    requires |pat| > 0
    requires !Contains(s, pat)
    ensures ReplaceAll(s, pat, v) == s
    decreases |s|
  {
    if s != [] {
      IndexOfSpec(s, pat);
      StartsWithIff(s, pat);
      IndexOfSpec(s[1..], pat);
      forall j ensures !OccursAt(s[1..], pat, j) {
        if 0 <= j && j + |pat| <= |s| - 1 {
          assert s[1..][j..j + |pat|] == s[j + 1..j + 1 + |pat|];
        }
      }
      ReplaceAllAbsent(s[1..], pat, v);
      assert s == [s[0]] + s[1..];
    }
  }

  /** An occurrence at the front is replaced. */
  lemma ReplaceAllHead(pat: string, rest: string, v: string)
    requires |pat| > 0
    ensures ReplaceAll(pat + rest, pat, v) == v + ReplaceAll(rest, pat, v)
  {
    assert (pat + rest)[..|pat|] == pat;
    assert (pat + rest)[|pat|..] == rest;
    StartsWithIff(pat + rest, pat);
  }

  /** A prefix `x` in which no occurrence of `pat` starts is copied through unchanged. */
  lemma {:induction false} ReplaceAllSkip(x: string, rest: string, pat: string, v: string)
    requires |pat| > 0
    requires forall i :: 0 <= i < |x| ==> !OccursAt(x + rest, pat, i)
    ensures ReplaceAll(x + rest, pat, v) == x + ReplaceAll(rest, pat, v)
    decreases |x|
  {
    if x != [] {
      var s := x + rest;
      assert !OccursAt(s, pat, 0);
      StartsWithIff(s, pat);
      assert !StartsWith(s, pat);
      assert s[1..] == x[1..] + rest;
      forall i | OccursAt(x[1..] + rest, pat, i) ensures OccursAt(s, pat, i + 1) {
        assert (x[1..] + rest)[i..i + |pat|] == s[i + 1..i + 1 + |pat|];
      }
      ReplaceAllSkip(x[1..], rest, pat, v);
      calc {
        ReplaceAll(s, pat, v);
        [s[0]] + ReplaceAll(s[1..], pat, v);
        [x[0]] + (x[1..] + ReplaceAll(rest, pat, v));
        { assert x == [x[0]] + x[1..]; }
        x + ReplaceAll(rest, pat, v);
      }
    } else {
      assert x + rest == rest;
    }
  }

  /** A prefix without the first character of `pat` is copied through unchanged. */
  lemma ReplaceAllSkipFree(x: string, rest: string, pat: string, v: string)
    requires |pat| > 0 && pat[0] !in x
    ensures ReplaceAll(x + rest, pat, v) == x + ReplaceAll(rest, pat, v)
  {
    forall i | 0 <= i < |x| && i + |pat| <= |x + rest| ensures (x + rest)[i..i + |pat|][0] == x[i] {
    }
    ReplaceAllSkip(x, rest, pat, v);
  }

  // ------------------------------------------------------------- splitting

  /**
   * `s.split(sep)[1]`: the text after the first occurrence of `sep`, up to the next
   * occurrence or the end; absent when `sep` does not occur.
   */
  function SecondPiece(s: string, sep: string): (r: Option<string>)
    requires |sep| > 0
  {
    IndexOfSpec(s, sep);
    match IndexOf(s, sep)
    case None => None
    case Some(i) =>
      var rest := s[i + |sep|..];
      IndexOfSpec(rest, sep);
      match IndexOf(rest, sep)
      case None => Some(rest)
      case Some(j) => Some(rest[..j])
  }

  /** `split(sep)[1]` exists exactly when `sep` occurs, and never contains `sep` itself. */
  lemma SecondPieceSpec(s: string, sep: string)
    requires |sep| > 0
    ensures SecondPiece(s, sep).Some? <==> Contains(s, sep)
    ensures SecondPiece(s, sep).Some? ==> !Contains(SecondPiece(s, sep).value, sep)
  {
    IndexOfFoundIff(s, sep);
    if IndexOf(s, sep).Some? {
      IndexOfSpec(s, sep);
      var rest := s[IndexOf(s, sep).value + |sep|..];
      IndexOfSpec(rest, sep);
      IndexOfFoundIff(rest, sep);
      if IndexOf(rest, sep).Some? {
        var j := IndexOf(rest, sep).value;
        forall k ensures !OccursAt(rest[..j], sep, k) {
          if 0 <= k && k + |sep| <= j {
            assert rest[..j][k..k + |sep|] == rest[k..k + |sep|];
            assert !OccursAt(rest, sep, k);
          }
        }
      }
    }
  }

  /**
   * When `sep` is preceded by text without `sep` and by a non-empty delimiter sharing no
   * character with `sep`, and followed by text without `sep`, `split(sep)[1]` is that text.
   */
  lemma SecondPieceAfter(a: string, d: string, sep: string, b: string)
    requires |sep| > 0 && |d| > 0
    requires !Contains(a, sep) && !Contains(b, sep)
    requires forall i :: 0 <= i < |d| ==> d[i] !in sep
    ensures SecondPiece(a + d + sep + b, sep) == Some(b)
  {
    var s := a + d + sep + b;
    var k := |a| + |d|;
    assert OccursAt(s, sep, k) by {
      assert s[k..k + |sep|] == sep;
    }
    forall j | 0 <= j < k ensures !OccursAt(s, sep, j) {
      if j + |sep| <= |a| {
        assert s[j..j + |sep|] == a[j..j + |sep|];
        assert !OccursAt(a, sep, j);
      } else if j + |sep| <= |s| {
        var m := if j < |a| then |a| else j;
        assert s[m] == d[m - |a|];
        assert s[j..j + |sep|][m - j] == s[m];
      }
    }
    IndexOfIsFirst(s, sep, k);
    assert s[k + |sep|..] == b;
    IndexOfSpec(b, sep);
    IndexOfFoundIff(b, sep);
  }

  /** `split(sep)[1]` of `a + sep + b + sep + c`, when the two separators shown are the first two: `b`. */
  lemma SecondPieceBetween(a: string, sep: string, b: string, c: string)
    requires |sep| > 0
    requires forall i :: 0 <= i < |a| ==> !OccursAt(a + sep + b + sep + c, sep, i)
    requires forall j :: 0 <= j < |b| ==> !OccursAt(b + sep + c, sep, j)
    ensures SecondPiece(a + sep + b + sep + c, sep) == Some(b)
  {
    var s := a + sep + b + sep + c;
    var rest := b + sep + c;
    assert s[|a|..|a| + |sep|] == sep;
    IndexOfIsFirst(s, sep, |a|);
    assert s[|a| + |sep|..] == rest;
    assert rest[|b|..|b| + |sep|] == sep;
    IndexOfIsFirst(rest, sep, |b|);
    assert rest[..|b|] == b;
  }

  /** `split(sep)[1]` of `a + sep + b`, when the separator shown is the first and `b` holds none: `b`. */
  lemma SecondPieceLast(a: string, sep: string, b: string)
    requires |sep| > 0
    requires forall i :: 0 <= i < |a| ==> !OccursAt(a + sep + b, sep, i)
    requires !Contains(b, sep)
    ensures SecondPiece(a + sep + b, sep) == Some(b)
  {
    var s := a + sep + b;
    assert s[|a|..|a| + |sep|] == sep;
    IndexOfIsFirst(s, sep, |a|);
    assert s[|a| + |sep|..] == b;
    IndexOfFoundIff(b, sep);
  }

  /** A piece of a string without `pat` has no `pat` either. */
  lemma NotContainsInfix(s: string, i: int, n: int, pat: string)
    requires 0 <= i && 0 <= n && i + n <= |s| && !Contains(s, pat)
    ensures !Contains(s[i..i + n], pat)
  {
    var t := s[i..i + n];
    forall j ensures !OccursAt(t, pat, j) {
      if 0 <= j && j + |pat| <= n {
        var u, v := t[j..j + |pat|], s[i + j..i + j + |pat|];
        assert forall m :: 0 <= m < |pat| ==> u[m] == v[m];
        assert u == v;
        assert !OccursAt(s, pat, i + j);
      }
    }
  }

  /** The trimmed `split(sep)[1]` is its own trim and holds no `sep`. */
  lemma TrimmedSecondPiece(s: string, sep: string)
    requires |sep| > 0 && Contains(s, sep)
    ensures SecondPiece(s, sep).Some?
    ensures var t := Trim(SecondPiece(s, sep).value); Trim(t) == t && !Contains(t, sep)
  {
    SecondPieceSpec(s, sep);
    var piece := SecondPiece(s, sep).value;
    TrimIdempotent(piece);
    TrimNotContains(piece, sep);
  }

  /** Trimming cannot create an occurrence. */
  lemma TrimNotContains(s: string, pat: string)
    requires !Contains(s, pat)
    ensures !Contains(Trim(s), pat)
  {
    TrimIsInfix(s);
    NotContainsInfix(s, |s| - |TrimStart(s)|, |Trim(s)|, pat);
  }

  /** Prefixing a character that `pat` lacks cannot create an occurrence of `pat`. */
  lemma NotContainsCons(c: char, b: string, pat: string)
    requires |pat| > 0 && c !in pat && !Contains(b, pat)
    ensures !Contains([c] + b, pat)
  {
    forall j ensures !OccursAt([c] + b, pat, j) {
      if j == 0 && |pat| <= |[c] + b| {
        assert ([c] + b)[..|pat|][0] == c;
      } else if 1 <= j && j + |pat| <= |[c] + b| {
        assert ([c] + b)[j..j + |pat|] == b[j - 1..j - 1 + |pat|];
        assert !OccursAt(b, pat, j - 1);
      }
    }
  }

  /** A prefix without the pattern's first character cannot start an occurrence of the pattern. */
  lemma NotContainsAfterHeadless(a: string, b: string, pat: string)
    requires |pat| > 0 && pat[0] !in a && !Contains(b, pat)
    ensures !Contains(a + b, pat)
  {
    var s := a + b;
    forall j ensures !OccursAt(s, pat, j) {
      if 0 <= j < |a| && j + |pat| <= |s| {
        assert s[j..j + |pat|][0] == a[j];
      } else if |a| <= j && j + |pat| <= |s| {
        assert s[j..j + |pat|] == b[j - |a|..j - |a| + |pat|];
        assert !OccursAt(b, pat, j - |a|);
      }
    }
  }

  // ------------------------------------------------------- address lists

  /** `xs.filter(Boolean).map(trim).filter(nonEmpty)`: the trimmed non-blank entries, in order. */
  function TrimmedNonBlank(xs: seq<Option<string>>): (r: seq<string>)
    ensures |r| <= |xs|
    ensures forall s :: s in r ==> s != "" && Trim(s) == s
  {
    if xs == [] then []
    else if xs[0].Some? && !IsBlank(xs[0].value) then
      TrimIdempotent(xs[0].value);
      [Trim(xs[0].value)] + TrimmedNonBlank(xs[1..])
    else TrimmedNonBlank(xs[1..])
  }

  /** An address is kept exactly when some entry trims to it and is not blank. */
  lemma {:induction false} TrimmedNonBlankMembers(xs: seq<Option<string>>, s: string)
    ensures s in TrimmedNonBlank(xs) <==>
            exists i :: 0 <= i < |xs| && xs[i].Some? && !IsBlank(xs[i].value) && Trim(xs[i].value) == s
  {
    if xs != [] {
      TrimmedNonBlankMembers(xs[1..], s);
      if s in TrimmedNonBlank(xs[1..]) {
        var i :| 0 <= i < |xs[1..]| && xs[1..][i].Some? && !IsBlank(xs[1..][i].value) && Trim(xs[1..][i].value) == s;
        assert xs[i + 1] == xs[1..][i];
      }
      if exists i :: 0 <= i < |xs| && xs[i].Some? && !IsBlank(xs[i].value) && Trim(xs[i].value) == s {
        var i :| 0 <= i < |xs| && xs[i].Some? && !IsBlank(xs[i].value) && Trim(xs[i].value) == s;
        if i > 0 {
          assert xs[1..][i - 1] == xs[i];
        }
      }
    }
  }

  /** What `s?.trim() || null` stores for an entry: the trimmed text, or nothing when blank. */
  function Cleaned(x: Option<string>): (r: Option<string>)
    ensures r.Some? <==> x.Some? && !IsBlank(x.value)
    ensures r.Some? ==> r.value == Trim(x.value)
  {
    if x.Some? && !IsBlank(x.value) then Some(Trim(x.value)) else None
  }

  /** Storing the entries cleaned and filtering them later gives the same list as filtering at once. */
  lemma {:induction false} TrimmedNonBlankOfCleaned(xs: seq<Option<string>>, ys: seq<Option<string>>)
    requires |ys| == |xs|
    requires forall i :: 0 <= i < |xs| ==> ys[i] == Cleaned(xs[i])
    ensures TrimmedNonBlank(ys) == TrimmedNonBlank(xs)
  {
    if xs != [] {
      TrimmedNonBlankOfCleaned(xs[1..], ys[1..]);
      if xs[0].Some? && !IsBlank(xs[0].value) {
        TrimIdempotent(xs[0].value);
      }
    }
  }

  /** `parts.join(sep)`. */
  function Join(parts: seq<string>, sep: string): string {
    if parts == [] then ""
    else if |parts| == 1 then parts[0]
    else parts[0] + sep + Join(parts[1..], sep)
  }

  /** `s.replace(/\s+/g, rep)`: every maximal run of whitespace becomes one `rep`. */
  function CollapseWhitespace(s: string, rep: string): string
    decreases |s|
  {
    if s == [] then []
    else if IsWhitespace(s[0]) then rep + CollapseWhitespace(TrimStart(s), rep)
    else [s[0]] + CollapseWhitespace(s[1..], rep)
  }

  lemma {:induction false} CollapseWhitespaceLeavesNone(s: string, rep: string)
    requires forall c :: c in rep ==> !IsWhitespace(c)
    ensures forall c :: c in CollapseWhitespace(s, rep) ==> !IsWhitespace(c)
    decreases |s|
  {
    if s != [] {
      if IsWhitespace(s[0]) {
        CollapseWhitespaceLeavesNone(TrimStart(s), rep);
      } else {
        CollapseWhitespaceLeavesNone(s[1..], rep);
      }
    }
  }

  /** A stretch without whitespace is copied through unchanged. */
  lemma {:induction false} CollapseWhitespaceKeeps(a: string, rest: string, rep: string)
    requires forall i :: 0 <= i < |a| ==> !IsWhitespace(a[i])
    ensures CollapseWhitespace(a + rest, rep) == a + CollapseWhitespace(rest, rep)
    decreases |a|
  {
    if a != [] {
      assert (a + rest)[0] == a[0];
      assert (a + rest)[1..] == a[1..] + rest;
      CollapseWhitespaceKeeps(a[1..], rest, rep);
      assert a == [a[0]] + a[1..];
    } else {
      assert a + rest == rest;
    }
  }

  /** Trimming a run of whitespace off the front leaves what follows it. */
  lemma {:induction false} TrimStartRun(w: string, b: string)
    requires forall i :: 0 <= i < |w| ==> IsWhitespace(w[i])
    requires b == [] || !IsWhitespace(b[0])
    ensures TrimStart(w + b) == b
    decreases |w|
  {
    if w != [] {
      assert (w + b)[0] == w[0];
      assert (w + b)[1..] == w[1..] + b;
      TrimStartRun(w[1..], b);
    } else {
      assert w + b == b;
    }
  }

  /** A whole run of whitespace, however long, becomes a single `rep`. */
  lemma CollapseWhitespaceRun(w: string, b: string, rep: string)
    requires |w| > 0 && forall i :: 0 <= i < |w| ==> IsWhitespace(w[i])
    requires b == [] || !IsWhitespace(b[0])
    ensures CollapseWhitespace(w + b, rep) == rep + CollapseWhitespace(b, rep)
  {
    assert (w + b)[0] == w[0];
    TrimStartRun(w, b);
  }

  /** A word: non-empty, without whitespace. */
  predicate IsWord(w: string) {
    w != [] && forall i :: 0 <= i < |w| ==> !IsWhitespace(w[i])
  }

  /** Words without whitespace, joined by single spaces, come out joined by `rep`. */
  lemma {:induction false} CollapseWhitespaceJoin(words: seq<string>, rep: string)
    requires forall k :: 0 <= k < |words| ==> IsWord(words[k])
    ensures CollapseWhitespace(Join(words, " "), rep) == Join(words, rep)
  {
    if |words| == 1 {
      CollapseWhitespaceKeeps(words[0], [], rep);
      assert words[0] + [] == words[0];
    } else if |words| > 1 {
      var tail := Join(words[1..], " ");
      CollapseWhitespaceJoin(words[1..], rep);
      assert tail[0] == words[1][0] by {
        if |words[1..]| > 1 {
          assert tail == words[1] + " " + Join(words[2..], " ");
        }
      }
      CollapseWhitespaceKeeps(words[0], " " + tail, rep);
      CollapseWhitespaceRun(" ", tail, rep);
      assert Join(words, " ") == words[0] + (" " + tail);
    }
  }

  // --------------------------------------------------------------- numbers

  function DigitChar(d: nat): char
    requires d < 10
  {
    "0123456789"[d]
  }

  /** `String(n)` for an integer. */
  function IntToString(n: int): string {
    if n < 0 then "-" + NatToString(-n) else NatToString(n)
  }

  function NatToString(n: nat): (r: string)
    ensures |r| > 0
  {
    if n < 10 then [DigitChar(n)] else NatToString(n / 10) + [DigitChar(n % 10)]
  }
}
