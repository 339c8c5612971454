/**
 Method and callsign patterns of the access control list: what CreateRegex makes of them, and
 the language that the result accepts.
 */
module GlobPatterns {
  import opened Common
  import opened PatternTokens
  import opened RegexFragment
  import opened RegexMatching
  import opened Replacement

  // ----- The compiler -----

  const RUN := "[a-zA-Z0-9.]*"

  function GlobRegex(input: string): string {
    Replaced(Replaced(input, "*", RUN), ".", "\\.")
  }

  method CreateRegex(input: string) returns (regex: string)
    ensures regex == GlobRegex(input)
  {
    regex := ReplaceString(input, "*", RUN);
    regex := ReplaceString(regex, ".", "\\.");
  }

  // ----- One pass -----

  const ESCAPED_RUN := "[a-zA-Z0-9" + "\\." + "]*"

  function Starred(afterColon: bool, x: char, beforeColon: bool): string {
    Rewritten(x, '*', RUN)
  }

  function GlobPiece(afterColon: bool, x: char, beforeColon: bool): string {
    if x == '*' then ESCAPED_RUN else Rewritten(x, '.', "\\.")
  }

  /** The second pass also rewrites the dot that the first one wrote inside the class. */
  lemma RunEscaped()
    ensures Replaced(RUN, ".", "\\.") == ESCAPED_RUN
  {
    RunParts("[a-zA-Z0-9", "]*");
    assert RUN == "[a-zA-Z0-9" + "." + "]*";
    assert ESCAPED_RUN == "[a-zA-Z0-9" + "\\." + "]*";
  }

  lemma RunParts(head: string, tail: string)
    requires '.' !in head && '.' !in tail
    ensures Replaced(head + "." + tail, ".", "\\.") == head + "\\." + tail
  {
    assert head + "." + tail == head + ("." + tail);
    LeftAlone(head, "." + tail, ".", "\\.");
    OneCharacter('.', tail, '.', "\\.");
    Kept(tail, '.', "\\.");
  }

  lemma PieceEscaped(before: bool, x: char, after: bool)
    ensures GlobPiece(before, x, after) == Replaced(Starred(before, x, after), ".", "\\.")
  {
    if x == '*' {
      RunEscaped();
    } else {
      RewrittenAlone(x, '.', "\\.");
    }
  }

  /** The two ordered passes are one pass that rewrites each character on its own. */
  lemma GlobOnePass(p: string)
    ensures GlobRegex(p) == Pass(p, false, GlobPiece)
  {
    PlainPass(p, false);
    forall before, x, after ensures Starred(before, x, after) == Replaced(Plain(before, x, after), "*", RUN) {
      RewrittenAlone(x, '*', RUN);
    }
    PassReplaced(p, false, Plain, '*', RUN, Starred);
    forall before, x, after ensures GlobPiece(before, x, after) == Replaced(Starred(before, x, after), ".", "\\.") {
      PieceEscaped(before, x, after);
    }
    PassReplaced(p, false, Starred, '.', "\\.", GlobPiece);
  }

  // ----- Reading the result back -----

  const GLOB: Class := [('a', 'z'), ('A', 'Z'), ('0', '9'), ('.', '.')]

  /** The characters a glob may hold: none with a meaning in regular expressions but * and dot. */
  predicate GlobCharacter(c: char) {
    c == '*' || c == '.' || !IsSyntax(c)
  }

  function GlobToken(afterColon: bool, x: char, beforeColon: bool): Item {
    if x == '*' then Item(GLOB, Star) else Item(Literal(x), One)
  }

  const GLOB_BODY := "a-zA-Z0-9" + "\\." + "]"

  lemma GlobBodyPieces(rest: string)
    ensures GLOB_BODY + rest == "a-z" + ("A-Z" + ("0-9" + ("\\." + ("]" + rest))))
  {
  }

  lemma GlobClassEnd(rest: string)
    ensures ClassBody("0-9" + ("\\." + ("]" + rest))) == Some(([('0', '9')] + ([('.', '.')] + []), rest))
  {
    CloseStep(rest);
    EscapeStep('.', "]" + rest, [], rest);
    RangeStep('0', '9', "\\." + ("]" + rest), [('.', '.')] + [], rest);
  }

  lemma TwoRanges(tail: string, cls: Class, rest: string)
    requires ClassBody(tail) == Some((cls, rest))
    ensures ClassBody("a-z" + ("A-Z" + tail)) == Some(([('a', 'z')] + ([('A', 'Z')] + cls), rest))
  {
    RangeStep('A', 'Z', tail, cls, rest);
    RangeStep('a', 'z', "A-Z" + tail, [('A', 'Z')] + cls, rest);
  }

  lemma GlobClass(rest: string)
    ensures ClassBody(GLOB_BODY + rest) == Some((GLOB, rest))
  {
    var digits := [('0', '9')] + ([('.', '.')] + []);
    GlobClassEnd(rest);
    TwoRanges("0-9" + ("\\." + ("]" + rest)), digits, rest);
    GlobBodyPieces(rest);
    assert GLOB == [('a', 'z')] + ([('A', 'Z')] + digits);
  }

  lemma RunText()
    ensures ESCAPED_RUN == "[" + GLOB_BODY + ['*']
  {
  }

  lemma RunReads()
    ensures ReadsAs(ESCAPED_RUN, Item(GLOB, Star))
  {
    forall rest ensures ClassBody(GLOB_BODY + rest) == Some((GLOB, rest)) {
      GlobClass(rest);
    }
    ClassReads(GLOB_BODY, GLOB, Star, '*');
    RunText();
  }

  lemma GlobReads()
    ensures Faithful(GlobCharacter, GlobPiece, GlobToken)
  {
    forall before, x, after | GlobCharacter(x)
      ensures ReadsAs(GlobPiece(before, x, after), GlobToken(before, x, after))
    {
      GlobPieceReads(before, x, after);
    }
  }

  lemma GlobPieceReads(before: bool, x: char, after: bool)
    requires GlobCharacter(x)
    ensures ReadsAs(GlobPiece(before, x, after), GlobToken(before, x, after))
  {
    if x == '*' {
      RunReads();
    } else if x == '.' {
      LiteralReads("\\.", '.');
    } else {
      LiteralReads([x], x);
    }
  }

  // ----- The language of a glob -----

  /** Letters, digits and dots. */
  predicate IsRun(s: string) {
    forall i :: 0 <= i < |s| ==> IsAlphanumeric(s[i]) || s[i] == '.'
  }

  /** A star stands for any run of letters, digits and dots, every other character for itself. */
  ghost predicate GlobMatch(p: string, s: string)
    decreases |p|, 1
  {
    if p == "" then s == ""
    else if p[0] == '*' then exists k: nat :: RunThen(p[1..], s, k)
    else s != "" && s[0] == p[0] && GlobMatch(p[1..], s[1..])
  }

  ghost predicate RunThen(p: string, s: string, k: nat)
    decreases |p| + 1, 0
  {
    k <= |s| && IsRun(s[..k]) && GlobMatch(p, s[k..])
  }

  lemma RunIsClass(s: string)
    ensures IsRun(s) <==> All(s, GLOB)
  {
    forall c ensures In(c, GLOB) <==> IsAlphanumeric(c) || c == '.' {
      GlobHolds(c);
    }
  }

  lemma GlobHolds(c: char)
    ensures In(c, GLOB) <==> IsAlphanumeric(c) || c == '.'
  {
    assert GLOB[0] == ('a', 'z') && GLOB[1] == ('A', 'Z') && GLOB[2] == ('0', '9') && GLOB[3] == ('.', '.');
  }

  lemma {:induction false} TokensMatchGlob(p: string, afterColon: bool, s: string)
    ensures Matches(Tokens(p, afterColon, GlobToken), s) <==> GlobMatch(p, s)
    decreases |p|
  {
    if p != "" {
      var rest := Tokens(p[1..], p[0] == ':', GlobToken);
      if p[0] == '*' {
        StarMatchesRun(GLOB, rest, s);
        forall k: nat ensures SplitAt(GLOB, rest, s, k) <==> RunThen(p[1..], s, k) {
          if k <= |s| {
            RunIsClass(s[..k]);
            TokensMatchGlob(p[1..], p[0] == ':', s[k..]);
          }
        }
      } else {
        ExactlyMatches(p[0], rest, s);
        if s != "" {
          TokensMatchGlob(p[1..], p[0] == ':', s[1..]);
        }
      }
    }
  }

  /** The compiled expression accepts exactly the strings that the glob denotes. */
  lemma CompiledGlobDenotes(p: string, s: string)
    requires Over(GlobCharacter, p)
    ensures FullMatch(GlobRegex(p), s) <==> GlobMatch(p, s)
  {
    GlobOnePass(p);
    GlobReads();
    PassReads(p, false, GlobCharacter, GlobPiece, GlobToken);
    FullMatchItems(GlobRegex(p), s);
    TokensMatchGlob(p, false, s);
  }

  // ----- A plus -----

  predicate AllAre(s: string, c: char) {
    forall i :: 0 <= i < |s| ==> s[i] == c
  }

  lemma PlusCompiled(c: char)
    requires !IsSyntax(c)
    ensures GlobRegex([c, '+']) == [c, '+']
    ensures Items([c, '+']) == Some([Item(Literal(c), Plus)])
  {
    GlobOnePass([c, '+']);
    assert [c, '+'][1..] == "+" && "+"[1..] == "";
    assert Pass("", false, GlobPiece) == "";
    assert Pass("+", c == ':', GlobPiece) == "+";
    assert Atom([c, '+']) == Some((Literal(c), "+"));
    assert Items("") == Some([]);
    assert [Item(Literal(c), Plus)] + [] == [Item(Literal(c), Plus)];
  }

  lemma RunOfOne(c: char, s: string, k: nat)
    ensures SplitAt(Literal(c), [], s, k) <==> k == |s| && AllAre(s, c)
  {
    assert Literal(c)[0] == (c, c);
    if k == |s| { assert s[..k] == s; }
  }

  lemma PlusDenotes(c: char, s: string)
    ensures Matches([Item(Literal(c), Plus)], s) <==> s != "" && AllAre(s, c)
  {
    assert [Item(Literal(c), Plus)] == [Item(Literal(c), Plus)] + [];
    PlusMatchesRun(Literal(c), [], s);
    forall k: nat ensures SplitAt(Literal(c), [], s, k) <==> k == |s| && AllAre(s, c) {
      RunOfOne(c, s, k);
    }
    assert SplitAt(Literal(c), [], s, |s|) <==> AllAre(s, c);
  }

  /** To the expression a plus is a repetition, so that the character before it is not followed by a plus. */
  lemma PlusRepeats(c: char, s: string)
    requires !IsSyntax(c)
    ensures FullMatch(GlobRegex([c, '+']), s) <==> s != "" && AllAre(s, c)
  {
    PlusCompiled(c);
    FullMatchItems([c, '+'], s);
    PlusDenotes(c, s);
  }

  predicate GlobOrPlus(c: char) {
    GlobCharacter(c) || c == '+'
  }

  /** Plain items, none of which takes a plus. */
  predicate Plusless(es: seq<Element>) {
    forall i :: 0 <= i < |es| ==> es[i].Char? && !In('+', es[i].item.cls)
  }

  predicate PluslessIfAny(es: Option<seq<Element>>) {
    es.Some? ==> Plusless(es.value)
  }

  lemma PluslessStep(text: string, cls: Class, rest: string)
    requires Atom(text) == Some((cls, rest)) && !In('+', cls)
    requires PluslessIfAny(Elements(QuantifierOf(rest).1, 0))
    ensures PluslessIfAny(Elements(text, 0))
  {
    var q := QuantifierOf(rest);
    assert Elements(text, 0) == Lead(Char(Item(cls, q.0)), Elements(q.1, 0));
  }

  lemma RunAtom(r: string)
    ensures Atom(ESCAPED_RUN + r) == Some((GLOB, "*" + r))
  {
    GlobClass("*" + r);
    RunText();
    BracketText(GLOB_BODY, '*', r);
    BracketAtom("[" + (GLOB_BODY + ("*" + r)), GLOB, "*" + r);
  }

  lemma CharacterAtom(before: bool, x: char, after: bool, r: string)
    requires GlobCharacter(x) && x != '*'
    ensures Atom(GlobPiece(before, x, after) + r) == Some((Literal(x), r))
    ensures !In('+', Literal(x))
  {
    assert x == '.' ==> ("\\." + r)[2..] == r;
    assert x != '.' ==> ([x] + r)[1..] == r;
    assert Literal(x)[0] == (x, x);
  }

  lemma PassStarts(p: string, afterColon: bool)
    requires Over(GlobOrPlus, p) && p != "" && p[0] != '+'
    ensures QuantifierOf(Pass(p, afterColon, GlobPiece)).0 == One
    ensures QuantifierOf(Pass(p, afterColon, GlobPiece)).1 == Pass(p, afterColon, GlobPiece)
  {
    assert GlobOrPlus(p[0]);
    assert GlobPiece(afterColon, p[0], ColonFirst(p[1..])) <= Pass(p, afterColon, GlobPiece);
  }

  lemma PlusRead(r: string)
    ensures QuantifierOf("+" + r) == (Plus, r) && Elements("+" + r, 0) == None
  {
    assert ("+" + r)[0] == '+' && ("+" + r)[1..] == r;
    assert Atom("+" + r) == None;
  }

  lemma PlusFirst(p: string, afterColon: bool)
    requires p != "" && p[0] == '+'
    ensures Pass(p, afterColon, GlobPiece) == "+" + Pass(p[1..], false, GlobPiece)
    ensures QuantifierOf(Pass(p, afterColon, GlobPiece)) == (Plus, Pass(p[1..], false, GlobPiece))
    ensures Elements(Pass(p, afterColon, GlobPiece), 0) == None
  {
    PlusRead(Pass(p[1..], false, GlobPiece));
    assert GlobPiece(afterColon, p[0], ColonFirst(p[1..])) == "+";
  }

  /** A plus in the pattern is never a character that the expression takes. */
  lemma {:induction false} PlusNeverTaken(p: string, afterColon: bool)
    requires Over(GlobOrPlus, p)
    ensures PluslessIfAny(Elements(Pass(p, afterColon, GlobPiece), 0))
    decreases |p|
  {
    if p != "" {
      var tail := p[1..];
      var rest := Pass(tail, p[0] == ':', GlobPiece);
      TailOver(GlobOrPlus, p);
      if p[0] == '+' {
        PlusFirst(p, afterColon);
      } else if p[0] == '*' {
        RunAtom(rest);
        GlobHolds('+');
        assert ("*" + rest)[1..] == rest;
        PlusNeverTaken(tail, false);
        PluslessStep(ESCAPED_RUN + rest, GLOB, "*" + rest);
      } else {
        CharacterAtom(afterColon, p[0], ColonFirst(tail), rest);
        PlusNeverTaken(tail, p[0] == ':');
        if tail != "" {
          if tail[0] == '+' {
            TailOver(GlobOrPlus, tail);
            PlusFirst(tail, p[0] == ':');
            PlusNeverTaken(tail[1..], false);
          } else {
            PassStarts(tail, p[0] == ':');
          }
        }
        PluslessStep(GlobPiece(afterColon, p[0], ColonFirst(tail)) + rest, Literal(p[0]), rest);
      }
    }
  }

  lemma {:induction false} PluslessSpans(es: seq<Element>, s: string, i: nat, j: nat)
    requires i <= |s| && Plusless(es) && Spans(es, s, i, j)
    ensures i <= j <= |s| && '+' !in s[i..j]
    decreases |es|, |s| - i
  {
    if es != [] {
      var item := es[0].item;
      match item.quantifier
      case One =>
        PluslessSpans(es[1..], s, i + 1, j);
        assert s[i..j] == [s[i]] + s[i + 1..j];
      case Star => PluslessStar(item.cls, es[1..], s, i, j);
      case Plus =>
        PluslessStar(item.cls, es[1..], s, i + 1, j);
        assert s[i..j] == [s[i]] + s[i + 1..j];
    }
  }

  lemma {:induction false} PluslessStar(cls: Class, rest: seq<Element>, s: string, i: nat, j: nat)
    requires i <= |s| && Plusless(rest) && !In('+', cls) && StarSpans(cls, rest, s, i, j)
    ensures i <= j <= |s| && '+' !in s[i..j]
    decreases |rest| + 1, |s| - i, 0
  {
    if Spans(rest, s, i, j) {
      PluslessSpans(rest, s, i, j);
    } else {
      PluslessStar(cls, rest, s, i + 1, j);
      assert s[i..j] == [s[i]] + s[i + 1..j];
    }
  }

  lemma PluslessText(es: seq<Element>, s: string)
    requires Plusless(es) && Spans(es, s, 0, |s|)
    ensures '+' !in s
  {
    PluslessSpans(es, s, 0, |s|);
    assert s[0..|s|] == s;
  }

  /** The shortest text that a glob denotes. */
  function Unstarred(p: string): string {
    if p == "" then "" else (if p[0] == '*' then "" else [p[0]]) + Unstarred(p[1..])
  }

  lemma {:induction false} UnstarredDenoted(p: string)
    ensures GlobMatch(p, Unstarred(p))
    ensures '+' in p ==> '+' in Unstarred(p)
    decreases |p|
  {
    if p != "" {
      UnstarredDenoted(p[1..]);
      assert p == [p[0]] + p[1..];
      var s := Unstarred(p);
      if p[0] == '*' {
        assert s == Unstarred(p[1..]) && s[0..] == s;
        assert RunThen(p[1..], s, 0);
      } else {
        assert s[1..] == Unstarred(p[1..]);
      }
    }
  }

  /** Among patterns that may also hold a plus, the compiled ones that mean the glob are those without one. */
  lemma GlobsExactly(p: string)
    requires Over(GlobOrPlus, p)
    ensures (forall s :: FullMatch(GlobRegex(p), s) <==> GlobMatch(p, s)) <==> '+' !in p
  {
    if '+' in p {
      var s := Unstarred(p);
      UnstarredDenoted(p);
      GlobOnePass(p);
      PlusNeverTaken(p, false);
      if FullMatch(GlobRegex(p), s) {
        PluslessText(Elements(GlobRegex(p), 0).value, s);
      }
      assert !(FullMatch(GlobRegex(p), s) <==> GlobMatch(p, s));
    } else {
      assert Over(GlobCharacter, p) by { assert forall i :: 0 <= i < |p| ==> p[i] in p; }
      forall s ensures FullMatch(GlobRegex(p), s) <==> GlobMatch(p, s) {
        CompiledGlobDenotes(p, s);
      }
    }
  }
}
