/**
 Origin patterns of the access control list: the seven ordered passes of CreateUrlRegex, the
 single pass they come to, and the origins that the result accepts.
 */
module UrlPatterns {
  import opened Common
  import opened PatternTokens
  import opened RegexFragment
  import opened RegexMatching
  import opened Replacement

  // ----- The compiler -----

  const PORT := "[0-9]+"
  const SCHEME := "[a-z]+"
  const HOST := "[a-zA-Z0-9\\.\\-]*"

  function Escaped(input: string): string {
    Replaced(Replaced(Replaced(input, "/", "\\/"), "[", "\\["), "]", "\\]")
  }

  function WithPorts(input: string): string {
    Replaced(Escaped(input), ":*", ":[0-9]+")
  }

  function WithSchemes(input: string): string {
    Replaced(WithPorts(input), "*:", "[a-z]+:")
  }

  function UrlBody(input: string): string {
    Replaced(Replaced(WithSchemes(input), ".", "\\."), "*", HOST)
  }

  function UrlRegex(input: string): string {
    "^(" + UrlBody(input) + ")$"
  }

  method CreateUrlRegex(input: string) returns (regex: string)
    ensures regex == UrlRegex(input)
  {
    regex := ReplaceString(input, "/", "\\/");
    regex := ReplaceString(regex, "[", "\\[");
    regex := ReplaceString(regex, "]", "\\]");
    regex := ReplaceString(regex, ":*", ":[0-9]+");
    regex := ReplaceString(regex, "*:", "[a-z]+:");
    regex := ReplaceString(regex, ".", "\\.");
    regex := ReplaceString(regex, "*", HOST);
    regex := ['('] + regex;
    regex := regex + [')'];
    regex := ['^'] + regex;
    regex := regex + ['$'];
  }

  // ----- What each pass leaves for each character -----

  function AfterSlash(before: bool, x: char, after: bool): string {
    Rewritten(x, '/', "\\/")
  }

  function AfterOpen(before: bool, x: char, after: bool): string {
    if x == '/' then "\\/" else Rewritten(x, '[', "\\[")
  }

  function AfterClose(before: bool, x: char, after: bool): string {
    if x in "/[]" then ['\\', x] else [x]
  }

  function AfterPorts(before: bool, x: char, after: bool): string {
    if x == '*' && before then PORT else AfterClose(before, x, after)
  }

  function AfterSchemes(before: bool, x: char, after: bool): string {
    if x == '*' && !before && after then SCHEME else AfterPorts(before, x, after)
  }

  function AfterDots(before: bool, x: char, after: bool): string {
    if x == '.' then "\\." else AfterSchemes(before, x, after)
  }

  /**
   The whole compiler as one pass: a star after a colon is a port, a star before a colon a scheme,
   any other star a host; slashes, brackets and dots are escaped.
   */
  function UrlPiece(before: bool, x: char, after: bool): string {
    if x == '*' then (if before then PORT else if after then SCHEME else HOST)
    else if x in "/[]." then ['\\', x]
    else [x]
  }

  // ----- Passes one to three -----

  lemma OpenAfterSlash(before: bool, x: char, after: bool)
    ensures AfterOpen(before, x, after) == Replaced(AfterSlash(before, x, after), "[", "\\[")
  {
    if x == '/' {
      Kept("\\/", '[', "\\[");
    } else {
      RewrittenAlone(x, '[', "\\[");
    }
  }

  lemma CloseAfterOpen(before: bool, x: char, after: bool)
    ensures AfterClose(before, x, after) == Replaced(AfterOpen(before, x, after), "]", "\\]")
  {
    if x == '/' {
      Kept("\\/", ']', "\\]");
    } else if x == '[' {
      Kept("\\[", ']', "\\]");
    } else {
      RewrittenAlone(x, ']', "\\]");
    }
  }

  lemma EscapedOnePass(p: string)
    ensures Escaped(p) == Pass(p, false, AfterClose)
  {
    PlainPass(p, false);
    forall before, x, after ensures AfterSlash(before, x, after) == Replaced(Plain(before, x, after), "/", "\\/") {
      RewrittenAlone(x, '/', "\\/");
    }
    PassReplaced(p, false, Plain, '/', "\\/", AfterSlash);
    forall before, x, after ensures AfterOpen(before, x, after) == Replaced(AfterSlash(before, x, after), "[", "\\[") {
      OpenAfterSlash(before, x, after);
    }
    PassReplaced(p, false, AfterSlash, '[', "\\[", AfterOpen);
    forall before, x, after ensures AfterClose(before, x, after) == Replaced(AfterOpen(before, x, after), "]", "\\]") {
      CloseAfterOpen(before, x, after);
    }
    PassReplaced(p, false, AfterOpen, ']', "\\]", AfterClose);
  }

  // ----- Pass four -----

  /** A two-character search that matches at the start. */
  lemma PairFound(a: char, b: char, tail: string, replace: string)
    ensures Replaced([a, b] + tail, [a, b], replace) == replace + Replaced(tail, [a, b], replace)
  {
    assert ([a, b] + tail)[2..] == tail;
    assert [a, b] <= [a, b] + tail;
  }

  /** A first character of a two-character search that the second one does not follow. */
  lemma PairMissed(a: char, b: char, tail: string, replace: string)
    requires tail == "" || tail[0] != b
    ensures Replaced([a] + tail, [a, b], replace) == [a] + Replaced(tail, [a, b], replace)
  {
    var s := [a] + tail;
    assert s[1..] == tail;
    if tail != "" {
      assert s[1] == tail[0];
    }
    assert [a, b][1] == b;
    assert !([a, b] <= s);
  }

  lemma PassStep(x: char, tail: string, before: bool, piece: (bool, char, bool) -> string)
    ensures Pass([x] + tail, before, piece) == piece(before, x, ColonFirst(tail)) + Pass(tail, x == ':', piece)
  {
    assert ([x] + tail)[1..] == tail;
  }

  /** What escaping leaves begins like the pattern as far as stars go, and does not look back. */
  lemma EscapedFirst(p: string, before: bool)
    ensures Pass(p, before, AfterClose) == Pass(p, false, AfterClose)
    ensures Pass(p, before, AfterClose) == "" <==> p == ""
    ensures p != "" ==> (Pass(p, before, AfterClose)[0] == '*' <==> p[0] == '*')
  {
  }

  lemma PortsLookBackAtStars(p: string, before: bool)
    requires p == "" || p[0] != '*'
    ensures Pass(p, before, AfterPorts) == Pass(p, false, AfterPorts)
  {
  }

  /** What a pass writes for a pair of characters. */
  lemma PairStep(x: char, y: char, tail: string, before: bool, piece: (bool, char, bool) -> string)
    ensures Pass([x, y] + tail, before, piece)
         == piece(before, x, y == ':') + piece(x == ':', y, ColonFirst(tail)) + Pass(tail, y == ':', piece)
  {
    assert [x, y] + tail == [x] + ([y] + tail);
    PassStep(x, [y] + tail, before, piece);
    PassStep(y, tail, x == ':', piece);
  }

  /** A pair that one pass leaves alone and the next one writes otherwise is found and replaced. */
  lemma PairReplaced(x: char, y: char, tail: string, before: bool, replace: string,
      piece: (bool, char, bool) -> string, whole: (bool, char, bool) -> string)
    requires piece(before, x, y == ':') + piece(x == ':', y, ColonFirst(tail)) == [x, y]
    requires whole(before, x, y == ':') + whole(x == ':', y, ColonFirst(tail)) == replace
    requires Replaced(Pass(tail, y == ':', piece), [x, y], replace) == Pass(tail, y == ':', whole)
    ensures Replaced(Pass([x, y] + tail, before, piece), [x, y], replace) == Pass([x, y] + tail, before, whole)
  {
    PairStep(x, y, tail, before, piece);
    PairStep(x, y, tail, before, whole);
    PairFound(x, y, Pass(tail, y == ':', piece), replace);
  }

  /** A star after a colon: the pair is found, the port written. */
  lemma PortFound(tail: string)
    requires Replaced(Pass(tail, false, AfterClose), ":*", ":[0-9]+") == Pass(tail, false, AfterPorts)
    ensures Replaced(Pass(":*" + tail, false, AfterClose), ":*", ":[0-9]+") == Pass(":*" + tail, false, AfterPorts)
  {
    assert [':'] + ['*'] == ":*";
    assert [':'] + PORT == ":[0-9]+";
    PairReplaced(':', '*', tail, false, ":[0-9]+", AfterClose, AfterPorts);
  }

  lemma ColonAlone(tail: string)
    requires tail == "" || tail[0] != '*'
    requires Replaced(Pass(tail, false, AfterClose), ":*", ":[0-9]+") == Pass(tail, false, AfterPorts)
    ensures Replaced(Pass(":" + tail, false, AfterClose), ":*", ":[0-9]+") == Pass(":" + tail, false, AfterPorts)
  {
    PassStep(':', tail, false, AfterClose);
    PassStep(':', tail, false, AfterPorts);
    EscapedFirst(tail, true);
    PairMissed(':', '*', Pass(tail, false, AfterClose), ":[0-9]+");
    PortsLookBackAtStars(tail, true);
  }

  lemma NoColon(x: char, tail: string)
    requires x != ':'
    requires Replaced(Pass(tail, false, AfterClose), ":*", ":[0-9]+") == Pass(tail, false, AfterPorts)
    ensures Replaced(Pass([x] + tail, false, AfterClose), ":*", ":[0-9]+") == Pass([x] + tail, false, AfterPorts)
  {
    PassStep(x, tail, false, AfterClose);
    PassStep(x, tail, false, AfterPorts);
    LeftAlone(AfterClose(false, x, ColonFirst(tail)), Pass(tail, false, AfterClose), ":*", ":[0-9]+");
  }

  lemma {:induction false} PortsPass(p: string)
    ensures Replaced(Pass(p, false, AfterClose), ":*", ":[0-9]+") == Pass(p, false, AfterPorts)
    decreases |p|
  {
    if p != "" {
      var x, tail := p[0], p[1..];
      assert p == [x] + tail;
      if x == ':' && tail != "" && tail[0] == '*' {
        assert p == ":*" + tail[1..];
        PortsPass(tail[1..]);
        PortFound(tail[1..]);
      } else {
        PortsPass(tail);
        if x == ':' { ColonAlone(tail); } else { NoColon(x, tail); }
      }
    }
  }

  // ----- Pass five -----

  lemma PortsFirst(p: string)
    ensures Pass(p, false, AfterPorts) == "" <==> p == ""
    ensures p != "" ==> (Pass(p, false, AfterPorts)[0] == ':' <==> p[0] == ':')
  {
  }

  /** A star before a colon, and not after one: the pair is found, the scheme written. */
  lemma SchemeFound(tail: string)
    requires Replaced(Pass(tail, true, AfterPorts), "*:", "[a-z]+:") == Pass(tail, true, AfterSchemes)
    ensures Replaced(Pass("*:" + tail, false, AfterPorts), "*:", "[a-z]+:") == Pass("*:" + tail, false, AfterSchemes)
  {
    assert ['*'] + [':'] == "*:";
    assert SCHEME + [':'] == "[a-z]+:";
    PairReplaced('*', ':', tail, false, "[a-z]+:", AfterPorts, AfterSchemes);
  }

  lemma StarAlone(tail: string)
    requires !ColonFirst(tail)
    requires Replaced(Pass(tail, false, AfterPorts), "*:", "[a-z]+:") == Pass(tail, false, AfterSchemes)
    ensures Replaced(Pass("*" + tail, false, AfterPorts), "*:", "[a-z]+:") == Pass("*" + tail, false, AfterSchemes)
  {
    PassStep('*', tail, false, AfterPorts);
    PassStep('*', tail, false, AfterSchemes);
    PortsFirst(tail);
    PairMissed('*', ':', Pass(tail, false, AfterPorts), "[a-z]+:");
  }

  lemma NoStar(x: char, tail: string, before: bool)
    requires x != '*' || before
    requires Replaced(Pass(tail, x == ':', AfterPorts), "*:", "[a-z]+:") == Pass(tail, x == ':', AfterSchemes)
    ensures Replaced(Pass([x] + tail, before, AfterPorts), "*:", "[a-z]+:") == Pass([x] + tail, before, AfterSchemes)
  {
    PassStep(x, tail, before, AfterPorts);
    PassStep(x, tail, before, AfterSchemes);
    LeftAlone(AfterPorts(before, x, ColonFirst(tail)), Pass(tail, x == ':', AfterPorts), "*:", "[a-z]+:");
  }

  lemma {:induction false} SchemesPass(p: string, before: bool)
    ensures Replaced(Pass(p, before, AfterPorts), "*:", "[a-z]+:") == Pass(p, before, AfterSchemes)
    decreases |p|
  {
    if p != "" {
      var x, tail := p[0], p[1..];
      assert p == [x] + tail;
      if x == '*' && !before && ColonFirst(tail) {
        assert p == "*:" + tail[1..];
        SchemesPass(tail[1..], true);
        SchemeFound(tail[1..]);
      } else {
        SchemesPass(tail, x == ':');
        if x == '*' && !before { StarAlone(tail); } else { NoStar(x, tail, before); }
      }
    }
  }

  // ----- Passes six and seven -----

  lemma DotsAfterSchemes(before: bool, x: char, after: bool)
    ensures AfterDots(before, x, after) == Replaced(AfterSchemes(before, x, after), ".", "\\.")
  {
    if x == '.' {
      RewrittenAlone(x, '.', "\\.");
    } else {
      Kept(AfterSchemes(before, x, after), '.', "\\.");
    }
  }

  lemma HostsAfterDots(before: bool, x: char, after: bool)
    ensures UrlPiece(before, x, after) == Replaced(AfterDots(before, x, after), "*", HOST)
  {
    if x == '*' && !before && !after {
      RewrittenAlone(x, '*', HOST);
    } else {
      Kept(AfterDots(before, x, after), '*', HOST);
    }
  }

  /** The seven ordered passes are one pass that reads each star by its neighbours. */
  lemma UrlOnePass(p: string)
    ensures UrlBody(p) == Pass(p, false, UrlPiece)
  {
    EscapedOnePass(p);
    PortsPass(p);
    SchemesPass(p, false);
    forall before, x, after
      ensures AfterDots(before, x, after) == Replaced(AfterSchemes(before, x, after), ".", "\\.")
    {
      DotsAfterSchemes(before, x, after);
    }
    PassReplaced(p, false, AfterSchemes, '.', "\\.", AfterDots);
    forall before, x, after ensures UrlPiece(before, x, after) == Replaced(AfterDots(before, x, after), "*", HOST) {
      HostsAfterDots(before, x, after);
    }
    PassReplaced(p, false, AfterDots, '*', HOST, UrlPiece);
  }

  // ----- Reading the result back -----

  const DIGITS: Class := [('0', '9')]
  const LOWER: Class := [('a', 'z')]
  const HOSTS: Class := [('a', 'z'), ('A', 'Z'), ('0', '9'), ('.', '.'), ('-', '-')]

  /** The characters a pattern may hold: none with a meaning in regular expressions but these. */
  predicate UrlCharacter(c: char) {
    c in "*.[]" || !IsSyntax(c)
  }

  function UrlToken(before: bool, x: char, after: bool): Item {
    if x == '*' then (if before then Item(DIGITS, Plus) else if after then Item(LOWER, Plus) else Item(HOSTS, Star))
    else Item(Literal(x), One)
  }

  const HOST_BODY := "a-zA-Z0-9\\.\\-]"

  lemma HostBodyPieces(rest: string)
    ensures HOST_BODY + rest == "a-z" + ("A-Z" + ("0-9" + ("\\." + ("\\-" + ("]" + rest)))))
  {
  }

  lemma HostTail(rest: string)
    ensures ClassBody("0-9" + ("\\." + ("\\-" + ("]" + rest)))) == Some(([('0', '9'), ('.', '.'), ('-', '-')], rest))
  {
    CloseStep(rest);
    EscapeStep('-', "]" + rest, [], rest);
    assert [('-', '-')] + [] == [('-', '-')];
    EscapeStep('.', "\\-" + ("]" + rest), [('-', '-')], rest);
    assert [('.', '.')] + [('-', '-')] == [('.', '.'), ('-', '-')];
    RangeStep('0', '9', "\\." + ("\\-" + ("]" + rest)), [('.', '.'), ('-', '-')], rest);
    assert [('0', '9')] + [('.', '.'), ('-', '-')] == [('0', '9'), ('.', '.'), ('-', '-')];
  }

  lemma HostClassFrom(tail: string, rest: string)
    requires ClassBody(tail) == Some(([('0', '9'), ('.', '.'), ('-', '-')], rest))
    ensures ClassBody("a-z" + ("A-Z" + tail)) == Some((HOSTS, rest))
  {
    var cls := [('0', '9'), ('.', '.'), ('-', '-')];
    RangeStep('A', 'Z', tail, cls, rest);
    RangeStep('a', 'z', "A-Z" + tail, [('A', 'Z')] + cls, rest);
    assert [('a', 'z')] + ([('A', 'Z')] + cls) == HOSTS;
  }

  lemma HostClass(rest: string)
    ensures ClassBody(HOST_BODY + rest) == Some((HOSTS, rest))
  {
    HostTail(rest);
    HostClassFrom("0-9" + ("\\." + ("\\-" + ("]" + rest))), rest);
    HostBodyPieces(rest);
  }

  lemma OneRangeClass(lo: char, hi: char, rest: string)
    requires IsAlphanumeric(lo) && IsAlphanumeric(hi)
    ensures ClassBody([lo, '-', hi] + "]" + rest) == Some(([(lo, hi)], rest))
  {
    CloseStep(rest);
    RangeStep(lo, hi, "]" + rest, [], rest);
    assert [lo, '-', hi] + "]" + rest == [lo, '-', hi] + ("]" + rest);
    assert [(lo, hi)] + [] == [(lo, hi)];
  }

  lemma HostText()
    ensures HOST == "[" + HOST_BODY + ['*']
  {
  }

  lemma HostReads()
    ensures ReadsAs(HOST, Item(HOSTS, Star))
  {
    forall rest ensures ClassBody(HOST_BODY + rest) == Some((HOSTS, rest)) {
      HostClass(rest);
    }
    ClassReads(HOST_BODY, HOSTS, Star, '*');
    HostText();
  }

  lemma PlussedRangeReads(lo: char, hi: char)
    requires IsAlphanumeric(lo) && IsAlphanumeric(hi)
    ensures ReadsAs("[" + ([lo, '-', hi] + "]") + ['+'], Item([(lo, hi)], Plus))
  {
    var body := [lo, '-', hi] + "]";
    forall rest ensures ClassBody(body + rest) == Some(([(lo, hi)], rest)) {
      OneRangeClass(lo, hi, rest);
    }
    ClassReads(body, [(lo, hi)], Plus, '+');
  }

  lemma UrlPieceReads(before: bool, x: char, after: bool)
    requires UrlCharacter(x)
    ensures ReadsAs(UrlPiece(before, x, after), UrlToken(before, x, after))
  {
    if x != '*' {
      LiteralReads(UrlPiece(before, x, after), x);
    } else if before {
      PlussedRangeReads('0', '9');
      assert PORT == "[" + (['0', '-', '9'] + "]") + ['+'];
    } else if after {
      PlussedRangeReads('a', 'z');
      assert SCHEME == "[" + (['a', '-', 'z'] + "]") + ['+'];
    } else {
      HostReads();
    }
  }

  // ----- The language of an origin pattern -----

  predicate IsDigits(s: string) {
    forall i :: 0 <= i < |s| ==> '0' <= s[i] <= '9'
  }

  predicate IsLower(s: string) {
    forall i :: 0 <= i < |s| ==> 'a' <= s[i] <= 'z'
  }

  predicate IsHost(s: string) {
    forall i :: 0 <= i < |s| ==> IsAlphanumeric(s[i]) || s[i] == '.' || s[i] == '-'
  }

  /** What a star stands for: a port after a colon, else a scheme before a colon, else a host. */
  predicate StandsFor(before: bool, after: bool, run: string) {
    if before then run != "" && IsDigits(run)
    else if after then run != "" && IsLower(run)
    else IsHost(run)
  }

  ghost predicate UrlMatch(p: string, afterColon: bool, s: string)
    decreases |p|, 1
  {
    if p == "" then s == ""
    else if p[0] == '*' then exists k: nat :: StandsThen(afterColon, p[1..], s, k)
    else s != "" && s[0] == p[0] && UrlMatch(p[1..], p[0] == ':', s[1..])
  }

  ghost predicate StandsThen(before: bool, p: string, s: string, k: nat)
    decreases |p| + 1, 0
  {
    k <= |s| && StandsFor(before, ColonFirst(p), s[..k]) && UrlMatch(p, false, s[k..])
  }

  lemma DigitsAreClass(s: string)
    ensures IsDigits(s) <==> All(s, DIGITS)
  {
    forall c ensures In(c, DIGITS) <==> '0' <= c <= '9' {
      assert DIGITS[0] == ('0', '9');
    }
  }

  lemma LowerIsClass(s: string)
    ensures IsLower(s) <==> All(s, LOWER)
  {
    forall c ensures In(c, LOWER) <==> 'a' <= c <= 'z' {
      assert LOWER[0] == ('a', 'z');
    }
  }

  lemma HostHolds(c: char)
    ensures In(c, HOSTS) <==> IsAlphanumeric(c) || c == '.' || c == '-'
  {
    assert HOSTS[0] == ('a', 'z') && HOSTS[1] == ('A', 'Z') && HOSTS[2] == ('0', '9');
    assert HOSTS[3] == ('.', '.') && HOSTS[4] == ('-', '-');
  }

  lemma HostIsClass(s: string)
    ensures IsHost(s) <==> All(s, HOSTS)
  {
    forall c ensures In(c, HOSTS) <==> IsAlphanumeric(c) || c == '.' || c == '-' {
      HostHolds(c);
    }
  }

  function ClassOf(before: bool, after: bool): Class {
    if before then DIGITS else if after then LOWER else HOSTS
  }

  lemma StandsForClass(before: bool, after: bool, run: string)
    ensures StandsFor(before, after, run) <==> (run != "" || (!before && !after)) && All(run, ClassOf(before, after))
  {
    DigitsAreClass(run);
    LowerIsClass(run);
    HostIsClass(run);
  }

  /** A run of the star's class, non-empty where it must be, before what the items match. */
  predicate TakesRun(before: bool, after: bool, rest: seq<Item>, s: string, k: nat) {
    (k > 0 || (!before && !after)) && SplitAt(ClassOf(before, after), rest, s, k)
  }

  lemma StandsSplit(before: bool, p: string, rest: seq<Item>, s: string, k: nat)
    requires k <= |s| ==> (Matches(rest, s[k..]) <==> UrlMatch(p, false, s[k..]))
    ensures StandsThen(before, p, s, k) <==> TakesRun(before, ColonFirst(p), rest, s, k)
  {
    if k <= |s| {
      StandsForClass(before, ColonFirst(p), s[..k]);
    }
  }

  /** The item that a star is read as takes such a run. */
  lemma StarToken(before: bool, after: bool, rest: seq<Item>, s: string)
    ensures Matches([UrlToken(before, '*', after)] + rest, s) <==> exists k: nat :: TakesRun(before, after, rest, s, k)
  {
    var cls := ClassOf(before, after);
    if before || after {
      PlusMatchesRun(cls, rest, s);
      assert UrlToken(before, '*', after) == Item(cls, Plus);
      assert forall k: nat :: TakesRun(before, after, rest, s, k) <==> k > 0 && SplitAt(cls, rest, s, k);
    } else {
      StarMatchesRun(cls, rest, s);
      assert forall k: nat :: TakesRun(before, after, rest, s, k) <==> SplitAt(cls, rest, s, k);
    }
  }

  lemma {:induction false} TokensMatchUrl(p: string, before: bool, s: string)
    ensures Matches(Tokens(p, before, UrlToken), s) <==> UrlMatch(p, before, s)
    decreases |p|
  {
    if p != "" {
      var rest := Tokens(p[1..], p[0] == ':', UrlToken);
      if p[0] == '*' {
        forall k: nat
          ensures StandsThen(before, p[1..], s, k) <==> TakesRun(before, ColonFirst(p[1..]), rest, s, k)
        {
          if k <= |s| {
            TokensMatchUrl(p[1..], false, s[k..]);
          }
          StandsSplit(before, p[1..], rest, s, k);
        }
        StarToken(before, ColonFirst(p[1..]), rest, s);
      } else {
        ExactlyMatches(p[0], rest, s);
        if s != "" {
          TokensMatchUrl(p[1..], p[0] == ':', s[1..]);
        }
      }
    }
  }

  /** The anchored expression is found in exactly the origins that the pattern denotes. */
  lemma CompiledUrlDenotes(p: string, origin: string)
    requires Over(UrlCharacter, p)
    ensures Search(UrlRegex(p), origin) <==> UrlMatch(p, false, origin)
  {
    UrlOnePass(p);
    forall before, x, after | UrlCharacter(x) ensures ReadsAs(UrlPiece(before, x, after), UrlToken(before, x, after)) {
      UrlPieceReads(before, x, after);
    }
    PassReads(p, false, UrlCharacter, UrlPiece, UrlToken);
    AnchoredSearch(UrlBody(p), origin);
    FullMatchItems(UrlBody(p), origin);
    TokensMatchUrl(p, false, origin);
  }
}
