/**
 The origin the access control list cuts out of a URL, and for which URLs it is the scheme and
 authority of section 3 of RFC 3986.
 */
module UrlOrigin {

  predicate Free(s: string, c: char) {
    c !in s
  }

  /** The part before the first occurrence, or all of it. */
  function UpTo(s: string, c: char): string {
    if s == "" || s[0] == c then "" else [s[0]] + UpTo(s[1..], c)
  }

  /** The part before the last occurrence, or all of it. */
  function BeforeLast(s: string, c: char): string {
    if s == "" then ""
    else if s[0] == c && Free(s[1..], c) then ""
    else [s[0]] + BeforeLast(s[1..], c)
  }

  lemma {:induction false} UpToAt(s: string, c: char, k: nat)
    requires k <= |s| && Free(s[..k], c) && (k < |s| ==> s[k] == c)
    ensures UpTo(s, c) == s[..k]
  {
    if k > 0 {
      assert s[..k] == [s[0]] + s[1..][..k - 1];
      UpToAt(s[1..], c, k - 1);
    }
  }

  /** std::string::find of a character; the length of the text stands for npos. */
  method FindChar(s: string, c: char, from: nat) returns (pos: nat)
    ensures from <= |s| ==> from <= pos <= |s| && s[from..pos] == UpTo(s[from..], c)
    ensures from > |s| ==> pos == |s|
    ensures pos < |s| ==> s[pos] == c
  {
    if from > |s| { return |s|; }
    pos := from;
    while pos < |s| && s[pos] != c
      invariant from <= pos <= |s| && Free(s[from..pos], c)
    {
      pos := pos + 1;
    }
    var rest := s[from..];
    assert rest[..pos - from] == s[from..pos];
    UpToAt(rest, c, pos - from);
  }

  /** Where the two slashes first stand; the length of the text when nowhere. */
  function Slashes(s: string): (pos: nat)
    ensures pos == |s| || (pos + 2 <= |s| && s[pos] == '/' && s[pos + 1] == '/')
  {
    if |s| < 2 then |s|
    else if s[0] == '/' && s[1] == '/' then 0
    else 1 + Slashes(s[1..])
  }

  method FindSlashes(s: string) returns (pos: nat)
    ensures pos == Slashes(s)
  {
    pos := 0;
    while pos + 2 <= |s| && !(s[pos] == '/' && s[pos + 1] == '/')
      invariant pos <= |s| && pos + Slashes(s[pos..]) == Slashes(s)
    {
      assert s[pos..][1..] == s[pos + 1..];
      pos := pos + 1;
    }
    if pos + 2 > |s| { pos := |s|; }
  }

  /** std::string::rfind from the end of the first n characters; n itself when there is none. */
  method CutAtLast(s: string, c: char, n: nat) returns (end: nat)
    requires n <= |s| && (n < |s| ==> s[n] != c)
    ensures end <= n && s[..end] == BeforeLast(s[..n], c)
    ensures end < n ==> s[end] == c
  {
    end := n;
    while end > 0 && s[end - 1] != c
      invariant end <= n && Free(s[end..n], c)
    {
      end := end - 1;
    }
    if end == 0 {
      NoneLast(s[..n], c);
      end := n;
    } else {
      end := end - 1;
      LastAt(s[..n], c, end);
    }
  }

  lemma {:induction false} NoneLast(s: string, c: char)
    requires Free(s, c)
    ensures BeforeLast(s, c) == s
  {
    if s != "" { NoneLast(s[1..], c); }
  }

  lemma {:induction false} LastAt(s: string, c: char, k: nat)
    requires k < |s| && s[k] == c && Free(s[k + 1..], c)
    ensures BeforeLast(s, c) == s[..k]
  {
    if k > 0 {
      assert s[1..][k..] == s[k + 1..];
      assert s[1..][k - 1] == c && s[1..][k - 1 + 1..] == s[k + 1..];
      LastAt(s[1..], c, k - 1);
      assert s[..k] == [s[0]] + s[1..][..k - 1];
    }
  }

  /** Where the search for the path starts: past the slashes, or, for want of them, at 1. */
  function PathFrom(s: string): nat {
    if Slashes(s) == |s| then 1 else Slashes(s) + 2
  }

  /** The text before the path. */
  function BeforePath(s: string): string {
    if PathFrom(s) > |s| then s else s[..PathFrom(s)] + UpTo(s[PathFrom(s)..], '/')
  }

  /** What is left before the last fragment mark and then before the last query mark. */
  function Trimmed(s: string): string {
    BeforeLast(BeforeLast(s, '#'), '?')
  }

  method GetUrlOrigin(input: string) returns (origin: string)
    ensures origin == Trimmed(BeforePath(input))
  {
    var slashes := FindSlashes(input);
    var path := FindChar(input, '/', if slashes == |input| then 1 else slashes + 2);
    assert input[..path] == BeforePath(input) by {
      if PathFrom(input) <= |input| {
        assert input[..path] == input[..PathFrom(input)] + input[PathFrom(input)..path];
      }
    }
    var end := CutAtLast(input, '#', path);
    end := CutAtLast(input, '?', end);
    origin := input[..end];
  }

  // ----- Scheme and authority -----

  predicate Plain(s: string) {
    Free(s, '/') && Free(s, '?') && Free(s, '#')
  }

  lemma {:induction false} SlashesAfterScheme(scheme: string, rest: string)
    requires Free(scheme, '/')
    ensures Slashes(scheme + "://" + rest) == |scheme| + 1
  {
    var s := scheme + "://" + rest;
    if scheme == "" {
      assert s[0] == ':' && s[1] == '/' && s[2] == '/';
      assert s[1..][0] == '/' && s[1..][1] == '/';
      assert Slashes(s[1..]) == 0;
    } else {
      assert s[0] == scheme[0];
      assert s[1..] == scheme[1..] + "://" + rest;
      SlashesAfterScheme(scheme[1..], rest);
    }
  }

  lemma {:induction false} UpToPast(a: string, b: string, c: char)
    requires Free(a, c)
    ensures UpTo(a + b, c) == a + UpTo(b, c)
  {
    if a == "" {
      assert a + b == b;
    } else {
      assert (a + b)[1..] == a[1..] + b && (a + b)[0] == a[0];
      UpToPast(a[1..], b, c);
    }
  }

  lemma {:induction false} BeforeLastPast(a: string, b: string, c: char)
    requires Free(a, c)
    ensures BeforeLast(a + b, c) == a + BeforeLast(b, c)
  {
    if a == "" {
      assert a + b == b;
    } else {
      assert (a + b)[1..] == a[1..] + b && (a + b)[0] == a[0];
      BeforeLastPast(a[1..], b, c);
    }
  }

  /** What follows the authority, up to the first slash, is cut off whole. */
  predicate CutWhole(t: string) {
    || t == ""
    || (t[0] == '#' && Free(t[1..], '#'))
    || (t[0] == '?' && Free(t[1..], '#') && Free(t[1..], '?'))
    || (t[0] == '?' && !Free(t[1..], '#') && Free(BeforeLast(t[1..], '#'), '?'))
  }

  lemma TrimmedAway(t: string)
    requires t == "" || t[0] in "?#"
    ensures Trimmed(t) == "" <==> CutWhole(t)
  {
    if t != "" && t[0] == '?' && Free(t[1..], '#') {
      NoneLast(t[1..], '#');
    }
  }

  lemma BeforePathFrom(head: string, rest: string)
    requires PathFrom(head + rest) == |head|
    ensures BeforePath(head + rest) == head + UpTo(rest, '/')
  {
    assert (head + rest)[..|head|] == head && (head + rest)[|head|..] == rest;
  }

  lemma PathAfterScheme(scheme: string, rest: string)
    requires Free(scheme, '/')
    ensures PathFrom(scheme + "://" + rest) == |scheme| + 3
  {
    SlashesAfterScheme(scheme, rest);
  }

  lemma PathAfterAuthority(head: string, authority: string, tail: string)
    requires Free(authority, '/') && PathFrom(head + (authority + tail)) == |head|
    ensures BeforePath(head + (authority + tail)) == head + (authority + UpTo(tail, '/'))
  {
    BeforePathFrom(head, authority + tail);
    UpToPast(authority, tail, '/');
  }

  lemma BeforePathOf(scheme: string, authority: string, tail: string)
    requires Plain(scheme) && Plain(authority)
    ensures BeforePath(scheme + "://" + authority + tail) == scheme + "://" + authority + UpTo(tail, '/')
  {
    var head := scheme + "://";
    PathAfterScheme(scheme, authority + tail);
    PathAfterAuthority(head, authority, tail);
    Regroup(head, authority, tail);
    Regroup(head, authority, UpTo(tail, '/'));
  }

  lemma Regroup(a: string, b: string, c: string)
    ensures a + b + c == a + (b + c)
  {
  }

  /** The origin of a URL is its scheme and authority exactly when the rest is cut off whole. */
  lemma OriginIsAuthority(scheme: string, authority: string, tail: string)
    requires Plain(scheme) && Plain(authority) && (tail == "" || tail[0] in "/?#")
    ensures Trimmed(BeforePath(scheme + "://" + authority + tail)) == scheme + "://" + authority
       <==> CutWhole(UpTo(tail, '/'))
  {
    var base, t := scheme + "://" + authority, UpTo(tail, '/');
    BeforePathOf(scheme, authority, tail);
    BaseKept(scheme, authority);
    BeforeLastPast(base, t, '#');
    BeforeLastPast(base, BeforeLast(t, '#'), '?');
    TrimmedAway(t);
    assert Trimmed(base + t) == base + Trimmed(t);
  }

  lemma BaseKept(scheme: string, authority: string)
    requires Plain(scheme) && Plain(authority)
    ensures Free(scheme + "://" + authority, '#') && Free(scheme + "://" + authority, '?')
  {
  }

  /** A second query mark before the path is a case in point: the first one stays in the origin. */
  lemma SecondQueryMark(scheme: string, authority: string, query: string, more: string)
    requires Plain(scheme) && Plain(authority) && Plain(query) && Plain(more)
    ensures Trimmed(BeforePath(scheme + "://" + authority + ("?" + query + "?" + more)))
         == scheme + "://" + authority + ("?" + query)
  {
    var base, t := scheme + "://" + authority, "?" + query + "?" + more;
    BeforePathOf(scheme, authority, t);
    assert t[..|t|] == t && Free(t, '/') && Free(t, '#');
    UpToAt(t, '/', |t|);
    BaseKept(scheme, authority);
    BeforeLastPast(base, t, '#');
    NoneLast(t, '#');
    BeforeLastPast(base, t, '?');
    LastQueryMark(query, more);
  }

  lemma LastQueryMark(query: string, more: string)
    requires Free(more, '?')
    ensures BeforeLast("?" + query + "?" + more, '?') == "?" + query
  {
    var t := "?" + query + "?" + more;
    assert t[..|query| + 1] == "?" + query && t[|query| + 2..] == more;
    LastAt(t, '?', |query| + 1);
  }

  // ----- Where the path is looked for -----

  predicate SlashesAt(s: string, i: nat) {
    i + 2 <= |s| && s[i] == '/' && s[i + 1] == '/'
  }

  lemma {:induction false} SlashesFirst(s: string, k: nat)
    requires SlashesAt(s, k) && forall i: nat :: i < k ==> !SlashesAt(s, i)
    ensures Slashes(s) == k
    decreases k
  {
    assert !SlashesAt(s, 0) || k == 0;
    if k > 0 {
      forall i: nat | i < k - 1 ensures !SlashesAt(s[1..], i) { assert !SlashesAt(s, i + 1); }
      SlashesFirst(s[1..], k - 1);
    }
  }

  lemma {:induction false} SlashesNowhere(s: string)
    requires forall i: nat :: !SlashesAt(s, i)
    ensures Slashes(s) == |s|
    decreases |s|
  {
    assert !SlashesAt(s, 0);
    if |s| >= 2 {
      forall i: nat ensures !SlashesAt(s[1..], i) { assert !SlashesAt(s, i + 1); }
      SlashesNowhere(s[1..]);
    }
  }

  /** Whatever comes before the first two slashes, the path begins at the first slash after them. */
  lemma OriginAfterSlashes(head: string, authority: string, tail: string)
    requires Free(authority, '/') && (tail == "" || tail[0] == '/')
    requires forall i: nat :: i < |head| ==> !SlashesAt(head + "//" + (authority + tail), i)
    ensures BeforePath(head + "//" + (authority + tail)) == head + "//" + authority
  {
    var s := head + "//" + (authority + tail);
    assert SlashesAt(s, |head|);
    SlashesFirst(s, |head|);
    PathAfterAuthority(head + "//", authority, tail);
    assert authority + UpTo(tail, '/') == authority;
  }

  /** A text without two slashes in a row is searched from its second character on. */
  lemma OriginWithoutSlashes(first: char, authority: string, tail: string)
    requires Free(authority, '/') && (tail == "" || tail[0] == '/')
    requires forall i: nat :: !SlashesAt([first] + (authority + tail), i)
    ensures BeforePath([first] + (authority + tail)) == [first] + authority
  {
    SlashesNowhere([first] + (authority + tail));
    PathAfterAuthority([first], authority, tail);
    assert authority + UpTo(tail, '/') == authority;
  }
}
