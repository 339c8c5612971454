/**
 How the regular expression that a single pass writes reads back: one item per character of the
 pattern.
 */
module PatternTokens {
  import opened Common
  import opened RegexFragment
  import opened Replacement

  /** One item per character of the pattern, by what stands before and after it. */
  function Tokens(p: string, afterColon: bool, token: (bool, char, bool) -> Item): seq<Item> {
    if p == "" then []
    else [token(afterColon, p[0], ColonFirst(p[1..]))] + Tokens(p[1..], p[0] == ':', token)
  }

  /** Each character the pass writes is read back as its item. */
  ghost predicate Faithful(allowed: char -> bool, piece: (bool, char, bool) -> string,
      token: (bool, char, bool) -> Item)
  {
    forall before, x, after :: allowed(x) ==> ReadsAs(piece(before, x, after), token(before, x, after))
  }

  predicate Over(allowed: char -> bool, p: string) {
    forall i :: 0 <= i < |p| ==> allowed(p[i])
  }

  lemma TailOver(allowed: char -> bool, p: string)
    requires p != "" && Over(allowed, p)
    ensures allowed(p[0]) && Over(allowed, p[1..])
  {
  }

  lemma ReadsBefore(text: string, item: Item, r: string)
    requires ReadsAs(text, item) && StartsAtom(r)
    ensures Items(text + r) == Cons(item, Items(r)) && StartsAtom(text + r)
  {
  }

  lemma {:induction false} PassReads(p: string, afterColon: bool, allowed: char -> bool,
      piece: (bool, char, bool) -> string, token: (bool, char, bool) -> Item)
    requires Over(allowed, p) && Faithful(allowed, piece, token)
    ensures StartsAtom(Pass(p, afterColon, piece))
    ensures Items(Pass(p, afterColon, piece)) == Some(Tokens(p, afterColon, token))
  {
    if p != "" {
      TailOver(allowed, p);
      PassReads(p[1..], p[0] == ':', allowed, piece, token);
      ReadsBefore(piece(afterColon, p[0], ColonFirst(p[1..])), token(afterColon, p[0], ColonFirst(p[1..])),
                  Pass(p[1..], p[0] == ':', piece));
    }
  }

  lemma ExactlyMatches(c: char, rest: seq<Item>, s: string)
    ensures Matches([Item(Literal(c), One)] + rest, s) <==> s != "" && s[0] == c && Matches(rest, s[1..])
  {
    var items := [Item(Literal(c), One)] + rest;
    assert items[1..] == rest;
    if s != "" {
      assert Literal(c)[0] == (c, c);
      assert In(s[0], Literal(c)) <==> s[0] == c;
    }
  }

  lemma StarMatchesRun(cls: Class, rest: seq<Item>, s: string)
    ensures Matches([Item(cls, Star)] + rest, s) <==> exists k: nat :: SplitAt(cls, rest, s, k)
  {
    assert ([Item(cls, Star)] + rest)[1..] == rest;
    StarSplits(cls, rest, s);
  }

  lemma PlusMatchesRun(cls: Class, rest: seq<Item>, s: string)
    ensures Matches([Item(cls, Plus)] + rest, s) <==> exists k: nat :: k > 0 && SplitAt(cls, rest, s, k)
  {
    assert ([Item(cls, Plus)] + rest)[1..] == rest;
    PlusSplits(cls, rest, s);
  }
}
