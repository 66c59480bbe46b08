/**
 * The pure string helpers of the home page: splitting a name on runs of
 * whitespace, truncating a description, dropping brace characters, and the
 * small pieces of the JavaScript string library they rely on (trim,
 * lower-casing, substring search, decimal formatting).
 */
module Text {
  import opened Wrappers

  /** The characters JavaScript's `\s` and `String.prototype.trim` treat as
      white space: ECMAScript's WhiteSpace and LineTerminator productions. */
  predicate IsSpace(c: char) {
    c == ' ' || c == '\t' || c == '\n' || c == '\r' || c == '\U{000B}' || c == '\U{000C}'
    || c == '\U{00A0}' || c == '\U{1680}' || ('\U{2000}' <= c <= '\U{200A}')
    || c == '\U{2028}' || c == '\U{2029}' || c == '\U{202F}' || c == '\U{205F}'
    || c == '\U{3000}' || c == '\U{FEFF}'
  }

  /*
   * The trimming and splitting below are stated for any character class
   * `sep`; the page uses them with `IsSpace`, which is what `trim()` and
   * the regular expression `/\s+/` mean by white space.
   */

  /** No character of `s` is in the class `sep`. */
  predicate NoneIn(s: string, sep: char -> bool) {
    forall i :: 0 <= i < |s| ==> !sep(s[i])
  }

  /** Every character of `s` is in the class `sep`. */
  predicate AllIn(s: string, sep: char -> bool) {
    forall i :: 0 <= i < |s| ==> sep(s[i])
  }

  /** `p` occurs in `s` starting at index `i`. */
  predicate OccursAt(s: string, p: string, i: nat) {
    i + |p| <= |s| && s[i..i + |p|] == p
  }

  /** JavaScript truthiness of a value that is a string or absent. */
  predicate Truthy(s: Option<string>) {
    s.Some? && s.value != ""
  }

  // ---------------------------------------------------------------- trim

  /** Length of the leading run of `sep` characters. */
  function LeadingRun(s: string, sep: char -> bool): (n: nat)
    ensures n <= |s|
    ensures forall i :: 0 <= i < n ==> sep(s[i])
    ensures n < |s| ==> !sep(s[n])
  {
    if s == [] || !sep(s[0]) then 0 else 1 + LeadingRun(s[1..], sep)
  }

  /** Length of the trailing run of `sep` characters. */
  function TrailingRun(s: string, sep: char -> bool): (n: nat)
    ensures n <= |s|
    ensures forall i :: |s| - n <= i < |s| ==> sep(s[i])
    ensures n < |s| ==> !sep(s[|s| - 1 - n])
  {
    if s == [] || !sep(s[|s| - 1]) then 0 else 1 + TrailingRun(s[..|s| - 1], sep)
  }

  /** The input without its leading and trailing `sep` runs;
      `String.prototype.trim` is `Trim(s, IsSpace)`. */
  function Trim(s: string, sep: char -> bool): (r: string)
    ensures r == [] || (!sep(r[0]) && !sep(r[|r| - 1]))
    ensures r == [] <==> AllIn(s, sep)
    ensures exists lo: nat :: OccursAt(s, r, lo) && AllIn(s[..lo], sep) && AllIn(s[lo + |r|..], sep)
  {
    var lo := LeadingRun(s, sep);
    if lo == |s| then
      TrimAllSep(s, sep);
      []
    else
      var hi := |s| - TrailingRun(s, sep);
      TrimSpan(s, sep, lo, hi);
      s[lo..hi]
  }

  /** A string that is all `sep` trims to nothing. */
  lemma TrimAllSep(s: string, sep: char -> bool)
    requires LeadingRun(s, sep) == |s|
    ensures AllIn(s, sep)
    ensures OccursAt(s, [], |s|) && AllIn(s[..|s|], sep) && AllIn(s[|s|..], sep)
  {
    assert s[..|s|] == s;
  }

  /** The span `Trim` keeps when `s` is not all `sep`: it starts and ends
      with a character outside `sep`, and only `sep` lies around it. */
  lemma TrimSpan(s: string, sep: char -> bool, lo: nat, hi: nat)
    requires lo == LeadingRun(s, sep) && lo < |s|
    requires hi == |s| - TrailingRun(s, sep)
    ensures lo < hi <= |s| && !sep(s[lo]) && !sep(s[hi - 1]) && !AllIn(s, sep)
    ensures OccursAt(s, s[lo..hi], lo) && AllIn(s[..lo], sep) && AllIn(s[hi..], sep)
  {
    var k := TrailingRun(s, sep);
    TrimSpanEnds(s, sep, lo, k);
    PrefixAllIn(s, sep, lo);
    SuffixAllIn(s, sep, k);
  }

  lemma TrimSpanEnds(s: string, sep: char -> bool, lo: nat, k: nat)
    requires lo == LeadingRun(s, sep) && lo < |s|
    requires k == TrailingRun(s, sep)
    ensures lo < |s| - k && !sep(s[lo]) && !sep(s[|s| - k - 1]) && !AllIn(s, sep)
  {
  }

  lemma PrefixAllIn(s: string, sep: char -> bool, k: nat)
    requires k <= |s| && forall i :: 0 <= i < k ==> sep(s[i])
    ensures AllIn(s[..k], sep)
  {
  }

  lemma SuffixAllIn(t: string, sep: char -> bool, k: nat)
    requires k <= |t| && forall i :: |t| - k <= i < |t| ==> sep(t[i])
    ensures AllIn(t[|t| - k..], sep)
  {
    var w := t[|t| - k..];
    forall i | 0 <= i < |w| ensures sep(w[i]) {
      assert w[i] == t[|t| - k + i];
    }
  }

  // ---------------------------------------------------- splitting a name

  /** Index of the first `sep` character, or |s| when there is none. */
  function FirstIn(s: string, sep: char -> bool): (n: nat)
    ensures n <= |s|
    ensures NoneIn(s[..n], sep)
    ensures n < |s| ==> sep(s[n])
  {
    if s == [] || sep(s[0]) then 0
    else
      var n := 1 + FirstIn(s[1..], sep);
      assert forall i :: 1 <= i < n ==> s[..n][i] == s[1..][..n - 1][i - 1];
      n
  }

  /** The pieces between maximal runs of `sep`; `s.split(/\s+/)` is
      `Split(s, IsSpace)`. Like JavaScript, a leading or trailing run yields
      an empty piece and the empty string yields one empty piece. */
  function Split(s: string, sep: char -> bool): (pieces: seq<string>)
    ensures |pieces| >= 1
    decreases |s|
  {
    var n := FirstIn(s, sep);
    if n == |s| then
      assert s[..n] == s;
      [s]
    else
      var m := n + LeadingRun(s[n..], sep);
      [s[..n]] + Split(s[m..], sep)
  }

  /** `pieces.join(" ")`. */
  function Join(pieces: seq<string>): string {
    if |pieces| == 0 then ""
    else if |pieces| == 1 then pieces[0]
    else pieces[0] + " " + Join(pieces[1..])
  }

  /** The string with every maximal run of `sep` replaced by one space: the
      reference that `Split` followed by `Join` is checked against. */
  function Collapse(s: string, sep: char -> bool): string
    decreases |s|
  {
    if s == [] then []
    else if sep(s[0]) then " " + Collapse(s[LeadingRun(s, sep)..], sep)
    else [s[0]] + Collapse(s[1..], sep)
  }

  /** `splitName` (src/Pages/HomePage.js:12-15). A missing, non-string or
      empty name gives no pieces; otherwise the trimmed name split on runs of
      white space. */
  function SplitName(name: Option<string>): (pieces: seq<string>)
    ensures !Truthy(name) ==> pieces == []
    ensures Truthy(name) && AllIn(name.value, IsSpace) ==> pieces == [""]
    ensures Truthy(name) && !AllIn(name.value, IsSpace) ==>
              |pieces| >= 1
              && (forall k :: 0 <= k < |pieces| ==> pieces[k] != "" && NoneIn(pieces[k], IsSpace))
              && Join(pieces) == Collapse(Trim(name.value, IsSpace), IsSpace)
  {
    if !Truthy(name) then []
    else
      var t := Trim(name.value, IsSpace);
      JoinSplit(t, IsSpace);
      SplitPiecesHaveNoSep(t, IsSpace);
      if t == [] then Split(t, IsSpace)
      else SplitTrimmedNonEmpty(t, IsSpace); Split(t, IsSpace)
  }

  /** A prefix without `sep` characters passes through `Collapse` unchanged. */
  lemma {:induction false} CollapseNoSepPrefix(a: string, b: string, sep: char -> bool)
    requires NoneIn(a, sep)
    ensures Collapse(a + b, sep) == a + Collapse(b, sep)
    decreases |a|
  {
    if a == [] {
      assert a + b == b;
    } else {
      var ab := a + b;
      assert ab[0] == a[0] && ab[1..] == a[1..] + b;
      assert !sep(a[0]);
      assert NoneIn(a[1..], sep) by {
        forall i | 0 <= i < |a| - 1 ensures !sep(a[1..][i]) {
          assert a[1..][i] == a[i + 1];
        }
      }
      CollapseNoSepPrefix(a[1..], b, sep);
      assert a == [a[0]] + a[1..];
    }
  }

  /** One step of `Split`: the piece before the first run, then the rest. */
  lemma SplitStep(s: string, sep: char -> bool, n: nat, m: nat)
    requires n == FirstIn(s, sep) && n < |s|
    requires m == n + LeadingRun(s[n..], sep)
    ensures Split(s, sep) == [s[..n]] + Split(s[m..], sep)
  {
  }

  /** A string without `sep` is a single piece. */
  lemma SplitWhole(s: string, sep: char -> bool)
    requires FirstIn(s, sep) == |s|
    ensures Split(s, sep) == [s]
  {
    assert s[..|s|] == s;
  }

  /** `Collapse` at a split point: the prefix without `sep` is kept. */
  lemma CollapseAt(s: string, n: nat, sep: char -> bool)
    requires n <= |s| && NoneIn(s[..n], sep)
    ensures Collapse(s, sep) == s[..n] + Collapse(s[n..], sep)
  {
    assert s == s[..n] + s[n..];
    CollapseNoSepPrefix(s[..n], s[n..], sep);
  }

  /** `Collapse` at the start of a run emits one space, then goes on after
      the run. */
  lemma CollapseRun(s: string, sep: char -> bool, n: nat, m: nat)
    requires n < |s| && sep(s[n])
    requires m == n + LeadingRun(s[n..], sep)
    ensures Collapse(s[n..], sep) == " " + Collapse(s[m..], sep)
  {
    var u := s[n..];
    assert u[m - n..] == s[m..];
  }

  /** Joining a piece in front of at least one more. */
  lemma JoinCons(h: string, t: seq<string>)
    requires |t| >= 1
    ensures Join([h] + t) == h + " " + Join(t)
  {
    assert ([h] + t)[0] == h && ([h] + t)[1..] == t;
  }

  /** Joining the pieces of a split with single spaces gives the string
      with its `sep` runs collapsed. */
  lemma {:induction false} JoinSplit(s: string, sep: char -> bool)
    ensures Join(Split(s, sep)) == Collapse(s, sep)
    decreases |s|
  {
    var n := FirstIn(s, sep);
    if n == |s| {
      CollapseAt(s, n, sep);
      SplitWhole(s, sep);
      assert s[..n] == s && s[n..] == [];
    } else {
      var m := n + LeadingRun(s[n..], sep);
      JoinSplit(s[m..], sep);
      JoinSplitHead(s, sep, n, m);
      CollapseHead(s, sep, n, m);
      Glue(Join(Split(s, sep)), Collapse(s, sep), s[..n], Join(Split(s[m..], sep)), Collapse(s[m..], sep));
    }
  }

  /** Two strings built from equal parts with one space between are equal. */
  lemma Glue(joined: string, collapsed: string, head: string, restJoined: string, restCollapsed: string)
    requires joined == head + " " + restJoined
    requires collapsed == head + (" " + restCollapsed)
    requires restJoined == restCollapsed
    ensures joined == collapsed
  {
  }

  /** The first piece of a split, one space, then the rest joined. */
  lemma JoinSplitHead(s: string, sep: char -> bool, n: nat, m: nat)
    requires n == FirstIn(s, sep) && n < |s|
    requires m == n + LeadingRun(s[n..], sep)
    ensures Join(Split(s, sep)) == s[..n] + " " + Join(Split(s[m..], sep))
  {
    SplitStep(s, sep, n, m);
    JoinCons(s[..n], Split(s[m..], sep));
  }

  /** The prefix before the first run, one space, then the rest collapsed. */
  lemma CollapseHead(s: string, sep: char -> bool, n: nat, m: nat)
    requires n == FirstIn(s, sep) && n < |s|
    requires m == n + LeadingRun(s[n..], sep)
    ensures Collapse(s, sep) == s[..n] + (" " + Collapse(s[m..], sep))
  {
    CollapseRun(s, sep, n, m);
    CollapseAt(s, n, sep);
  }

  /** No piece of a split holds a `sep` character. */
  lemma {:induction false} SplitPiecesHaveNoSep(s: string, sep: char -> bool)
    ensures forall k :: 0 <= k < |Split(s, sep)| ==> NoneIn(Split(s, sep)[k], sep)
    decreases |s|
  {
    var n := FirstIn(s, sep);
    if n == |s| {
      SplitWhole(s, sep);
    } else {
      var m := n + LeadingRun(s[n..], sep);
      SplitStep(s, sep, n, m);
      SplitPiecesHaveNoSep(s[m..], sep);
      var pieces := Split(s, sep);
      forall k | 0 <= k < |pieces| ensures NoneIn(pieces[k], sep) {
        if k > 0 { assert pieces[k] == Split(s[m..], sep)[k - 1]; }
      }
    }
  }

  /** A string with no `sep` at either end splits into non-empty pieces. */
  lemma {:induction false} SplitTrimmedNonEmpty(s: string, sep: char -> bool)
    requires s != [] && !sep(s[0]) && !sep(s[|s| - 1])
    ensures forall k :: 0 <= k < |Split(s, sep)| ==> Split(s, sep)[k] != ""
    decreases |s|
  {
    var n := FirstIn(s, sep);
    assert n > 0;
    if n == |s| {
      SplitWhole(s, sep);
    } else {
      var m := n + LeadingRun(s[n..], sep);
      var rest := s[m..];
      TrimmedRest(s, sep, n, m);
      assert rest[0] == s[m] && rest[|rest| - 1] == s[|s| - 1];
      SplitTrimmedNonEmpty(rest, sep);
      SplitStep(s, sep, n, m);
      assert |s[..n]| == n;
      ConsNonEmpty(s[..n], Split(rest, sep));
    }
  }

  /** What follows the first run of a trimmed string is trimmed. */
  lemma TrimmedRest(s: string, sep: char -> bool, n: nat, m: nat)
    requires s != [] && !sep(s[|s| - 1])
    requires n < |s| && sep(s[n])
    requires m == n + LeadingRun(s[n..], sep)
    ensures m < |s| && !sep(s[m])
  {
    var u := s[n..];
    assert u[|u| - 1] == s[|s| - 1];
    assert u[m - n] == s[m];
  }

  /** Prefixing a non-empty piece keeps every piece non-empty. */
  lemma ConsNonEmpty(h: string, t: seq<string>)
    requires h != ""
    requires forall k :: 0 <= k < |t| ==> t[k] != ""
    ensures forall k :: 0 <= k < |[h] + t| ==> ([h] + t)[k] != ""
  {
  }

  // ----------------------------------------------------------- truncation

  /** The default limit of `truncateText`, which the project cards also pass
      explicitly (src/Pages/HomePage.js:506). */
  const DefaultMaxLength: nat := 100

  /** `truncateText` (src/Pages/HomePage.js:17-20). A missing, non-string or
      empty text gives ""; a text within the limit is returned as is; a longer
      one is cut to `maxLength` characters, trimmed, and ends in "...". */
  function TruncateText(text: Option<string>, maxLength: nat := DefaultMaxLength): (r: string)
    ensures !Truthy(text) ==> r == ""
    ensures Truthy(text) && |text.value| <= maxLength ==> r == text.value
    ensures Truthy(text) && |text.value| > maxLength ==>
              |r| <= maxLength + 3
              && r == Trim(text.value[..maxLength], IsSpace) + "..."
  {
    if !Truthy(text) then ""
    else if |text.value| > maxLength then Trim(text.value[..maxLength], IsSpace) + "..."
    else text.value
  }

  /** What a truncated text keeps is a stretch of the original's first
      `maxLength` characters with no white space at either end. */
  lemma {:induction false} TruncatedKeepsInfix(text: string, maxLength: nat)
    requires |text| > maxLength
    ensures var kept := Trim(text[..maxLength], IsSpace);
            TruncateText(Some(text), maxLength) == kept + "..."
            && (exists lo: nat :: lo + |kept| <= maxLength && OccursAt(text, kept, lo))
            && (kept == [] || (!IsSpace(kept[0]) && !IsSpace(kept[|kept| - 1])))
  {
    TrimOfPrefix(text, maxLength, IsSpace);
  }

  /** Trimming a prefix keeps a stretch of that prefix. */
  lemma TrimOfPrefix(s: string, n: nat, sep: char -> bool)
    requires n <= |s|
    ensures exists lo: nat :: lo + |Trim(s[..n], sep)| <= n && OccursAt(s, Trim(s[..n], sep), lo)
  {
    var kept := Trim(s[..n], sep);
    var lo: nat :| OccursAt(s[..n], kept, lo);
    OccursInPrefix(s, n, kept, lo);
  }

  /** An occurrence inside a prefix is an occurrence in the whole string. */
  lemma OccursInPrefix(s: string, n: nat, p: string, lo: nat)
    requires n <= |s| && OccursAt(s[..n], p, lo)
    ensures lo + |p| <= n && OccursAt(s, p, lo)
  {
    assert s[..n][lo..lo + |p|] == s[lo..lo + |p|];
  }

  // ----------------------------------------------------------- brace strip

  predicate IsBrace(c: char) {
    c == '{' || c == '}'
  }

  /** `s.replace(/[{}]/g, "")` (src/Pages/HomePage.js:508): every brace
      removed, every other character kept, with its multiplicity. */
  function StripBraces(s: string): (r: string)
    ensures forall i :: 0 <= i < |r| ==> !IsBrace(r[i])
    ensures |r| <= |s|
    decreases |s|
  {
    if s == [] then []
    else (if IsBrace(s[0]) then [] else [s[0]]) + StripBraces(s[1..])
  }

  /** Every character other than a brace is kept as often as it occurs. */
  lemma {:induction false} StripBracesKeepsOthers(s: string, c: char)
    requires !IsBrace(c)
    ensures multiset(StripBraces(s))[c] == multiset(s)[c]
    decreases |s|
  {
    if s != [] {
      StripBracesKeepsOthers(s[1..], c);
      assert s == [s[0]] + s[1..];
    }
  }

  /** Stripping works piecewise, so the characters that stay keep their order. */
  lemma {:induction false} StripBracesAppend(a: string, b: string)
    ensures StripBraces(a + b) == StripBraces(a) + StripBraces(b)
    decreases |a|
  {
    if a != [] {
      var ab := a + b;
      assert ab[0] == a[0] && ab[1..] == a[1..] + b;
      StripBracesAppend(a[1..], b);
      var h := if IsBrace(a[0]) then [] else [a[0]];
      calc {
        StripBraces(ab);
        h + StripBraces(a[1..] + b);
        h + (StripBraces(a[1..]) + StripBraces(b));
        (h + StripBraces(a[1..])) + StripBraces(b);
        StripBraces(a) + StripBraces(b);
      }
    } else {
      assert a + b == b;
    }
  }

  /** A text without braces is shown unchanged, and stripping twice is
      the same as stripping once. */
  lemma {:induction false} StripBracesIdentity(s: string)
    requires forall i :: 0 <= i < |s| ==> !IsBrace(s[i])
    ensures StripBraces(s) == s
    decreases |s|
  {
    if s != [] {
      StripBracesIdentity(s[1..]);
    }
  }

  lemma StripBracesIdempotent(s: string)
    ensures StripBraces(StripBraces(s)) == StripBraces(s)
  {
    StripBracesIdentity(StripBraces(s));
  }

  // ---------------------------------------------------------- lower case

  /** `toLowerCase` on the ASCII letters; every other character is kept. */
  function LowerChar(c: char): char {
    if 'A' <= c <= 'Z' then (c as int + 32) as char else c
  }

  function ToLower(s: string): (r: string)
    ensures |r| == |s| && forall i :: 0 <= i < |s| ==> r[i] == LowerChar(s[i])
  {
    seq(|s|, i requires 0 <= i < |s| => LowerChar(s[i]))
  }

  // ------------------------------------------------------------- includes

  /** `s.includes(p)`: `p` occurs in `s` at some position. */
  function Contains(s: string, p: string): (r: bool)
    ensures r <==> exists i: nat :: OccursAt(s, p, i)
    decreases |s|
  {
    if |p| > |s| then false
    else if s[..|p|] == p then
      assert OccursAt(s, p, 0);
      true
    else
      ContainsShift(s, p);
      Contains(s[1..], p)
  }

  lemma ContainsShift(s: string, p: string)
    requires |p| <= |s| && s[..|p|] != p
    ensures (exists i: nat :: OccursAt(s, p, i)) <==> (exists i: nat :: OccursAt(s[1..], p, i))
  {
    if exists i: nat :: OccursAt(s, p, i) {
      var i: nat :| OccursAt(s, p, i);
      assert i > 0;
      assert s[1..][i - 1..i - 1 + |p|] == s[i..i + |p|];
      assert OccursAt(s[1..], p, i - 1);
    }
    if exists i: nat :: OccursAt(s[1..], p, i) {
      var i: nat :| OccursAt(s[1..], p, i);
      assert s[1..][i..i + |p|] == s[i + 1..i + 1 + |p|];
      assert OccursAt(s, p, i + 1);
    }
  }

  // ------------------------------------------------------------- decimals

  predicate IsDigit(c: char) {
    '0' <= c <= '9'
  }

  /** Template-literal formatting `${n}` of a non-negative integer:
      decimal digits, no leading zero. */
  function NatToString(n: nat): (r: string)
    ensures |r| >= 1 && forall i :: 0 <= i < |r| ==> IsDigit(r[i])
    ensures r[0] == '0' ==> n == 0
    ensures n < 10 <==> |r| == 1
  {
    if n < 10 then [('0' as int + n) as char]
    else NatToString(n / 10) + [('0' as int + n % 10) as char]
  }

  /** The number a string of decimal digits denotes: the inverse of NatToString. */
  function DecimalValue(s: string): nat
    requires forall i :: 0 <= i < |s| ==> IsDigit(s[i])
  {
    if s == [] then 0
    else
      var last := s[|s| - 1];
      assert IsDigit(last);
      10 * DecimalValue(s[..|s| - 1]) + (last as int - '0' as int)
  }

  lemma {:induction false} DecimalRoundTrip(n: nat)
    ensures DecimalValue(NatToString(n)) == n
  {
    if n >= 10 {
      var r := NatToString(n);
      assert r[..|r| - 1] == NatToString(n / 10);
      DecimalRoundTrip(n / 10);
    }
  }

}
