/**
 The meaning of the small regular expressions the access control list writes: sequences of
 literals, identity escapes and character classes, each possibly starred or plussed, read as
 section 15.10 of ECMA-262 (3rd edition) reads them.
 */
module RegexFragment {
  import opened Common

  datatype Quantifier = One | Star | Plus

  /** A set of characters as inclusive ranges. */
  type Class = seq<(char, char)>

  predicate In(c: char, cls: Class) {
    exists i :: 0 <= i < |cls| && cls[i].0 <= c <= cls[i].1
  }

  datatype Item = Item(cls: Class, quantifier: Quantifier)

  function Literal(c: char): Class {
    [(c, c)]
  }

  // ----- Syntax -----

  /** Characters with a meaning of their own outside a class. */
  predicate IsSyntax(c: char) {
    c in "^$\\.*+?()[]{}|\0"
  }

  predicate IsAlphanumeric(c: char) {
    'a' <= c <= 'z' || 'A' <= c <= 'Z' || '0' <= c <= '9'
  }

  /** A character of a class, bare or escaped, and the text after it. */
  function ClassAtom(r: string): (a: Option<(char, string)>)
    ensures a.Some? ==> |a.value.1| < |r|
  {
    if r == "" || r[0] == ']' then None
    else if r[0] != '\\' then Some((r[0], r[1..]))
    else if |r| >= 2 && !IsAlphanumeric(r[1]) then Some((r[1], r[2..]))
    else None
  }

  /** The ranges up to the closing bracket, and the text after it. */
  function ClassBody(r: string): (b: Option<(Class, string)>)
    ensures b.Some? ==> |b.value.1| < |r|
    decreases |r|
  {
    if r != "" && r[0] == ']' then Some(([], r[1..]))
    else
      match ClassAtom(r)
      case None => None
      case Some((lo, tail)) =>
        if |tail| >= 2 && tail[0] == '-' && tail[1] != ']' then
          match ClassAtom(tail[1..])
          case None => None
          case Some((hi, after)) => WithRange((lo, hi), ClassBody(after))
        else WithRange((lo, lo), ClassBody(tail))
  }

  function WithRange(range: (char, char), b: Option<(Class, string)>): (w: Option<(Class, string)>)
    ensures w.Some? <==> b.Some?
    ensures w.Some? ==> w.value.1 == b.value.1
  {
    match b
    case None => None
    case Some((cls, after)) => Some(([range] + cls, after))
  }

  /** One atom: a class, an identity escape or a plain character. */
  function Atom(r: string): (a: Option<(Class, string)>)
    ensures a.Some? ==> |a.value.1| < |r|
  {
    if r == "" then None
    else if r[0] == '[' then (if |r| >= 2 && r[1] == '^' then None else ClassBody(r[1..]))
    else if r[0] == '\\' then (if |r| >= 2 && !IsAlphanumeric(r[1]) then Some((Literal(r[1]), r[2..])) else None)
    else if IsSyntax(r[0]) then None
    else Some((Literal(r[0]), r[1..]))
  }

  function QuantifierOf(r: string): (Quantifier, string) {
    if r != "" && r[0] == '*' then (Star, r[1..])
    else if r != "" && r[0] == '+' then (Plus, r[1..])
    else (One, r)
  }

  function Cons(item: Item, items: Option<seq<Item>>): Option<seq<Item>> {
    match items
    case None => None
    case Some(tail) => Some([item] + tail)
  }

  /** The items of a regular expression, if it lies in the fragment. */
  function Items(r: string): Option<seq<Item>>
    decreases |r|
  {
    if r == "" then Some([])
    else
      match Atom(r)
      case None => None
      case Some((cls, tail)) =>
        var q := QuantifierOf(tail);
        Cons(Item(cls, q.0), Items(q.1))
  }

  // ----- Meaning -----

  /** The whole string is matched by the items, trying the shortest repetition first. */
  predicate Matches(items: seq<Item>, s: string)
    decreases |items|, |s|
  {
    if items == [] then s == ""
    else
      match items[0].quantifier
      case One => s != "" && In(s[0], items[0].cls) && Matches(items[1..], s[1..])
      case Star => StarMatches(items[0].cls, items[1..], s)
      case Plus => s != "" && In(s[0], items[0].cls) && StarMatches(items[0].cls, items[1..], s[1..])
  }

  predicate StarMatches(cls: Class, rest: seq<Item>, s: string)
    decreases |rest| + 1, |s|, 0
  {
    Matches(rest, s) || (s != "" && In(s[0], cls) && StarMatches(cls, rest, s[1..]))
  }

  predicate All(s: string, cls: Class) {
    forall i :: 0 <= i < |s| ==> In(s[i], cls)
  }

  lemma TailAll(c: char, s: string, cls: Class)
    requires All([c] + s, cls)
    ensures In(c, cls) && All(s, cls)
  {
    assert ([c] + s)[0] == c;
    forall i | 0 <= i < |s| ensures In(s[i], cls) {
      assert ([c] + s)[i + 1] == s[i];
    }
  }

  /** The first k characters are of the class and the rest is matched by the items. */
  predicate SplitAt(cls: Class, rest: seq<Item>, s: string, k: nat) {
    k <= |s| && All(s[..k], cls) && Matches(rest, s[k..])
  }

  lemma SplitStep(cls: Class, rest: seq<Item>, s: string, k: nat)
    requires s != ""
    ensures SplitAt(cls, rest, s, k + 1) <==> In(s[0], cls) && SplitAt(cls, rest, s[1..], k)
  {
    var tail := s[1..];
    if k <= |tail| {
      assert tail[k..] == s[k + 1..];
      assert s[..k + 1] == [s[0]] + tail[..k];
      if All(s[..k + 1], cls) {
        TailAll(s[0], tail[..k], cls);
      }
    }
  }

  /** A starred class takes some prefix of its characters and leaves the rest to the items after it. */
  lemma {:induction false} StarSplits(cls: Class, rest: seq<Item>, s: string)
    ensures StarMatches(cls, rest, s) <==> exists k: nat :: SplitAt(cls, rest, s, k)
    decreases |s|
  {
    assert SplitAt(cls, rest, s, 0) <==> Matches(rest, s) by {
      assert s[0..] == s;
    }
    if s != "" {
      StarSplits(cls, rest, s[1..]);
      if In(s[0], cls) && StarMatches(cls, rest, s[1..]) {
        var k: nat :| SplitAt(cls, rest, s[1..], k);
        SplitStep(cls, rest, s, k);
      }
      if k: nat :| SplitAt(cls, rest, s, k) && k > 0 {
        SplitStep(cls, rest, s, k - 1);
      }
    }
  }

  /** A plussed class takes some non-empty prefix of its characters. */
  lemma PlusSplits(cls: Class, rest: seq<Item>, s: string)
    ensures s != "" && In(s[0], cls) && StarMatches(cls, rest, s[1..])
       <==> exists k: nat :: k > 0 && SplitAt(cls, rest, s, k)
  {
    if s != "" {
      StarSplits(cls, rest, s[1..]);
      if In(s[0], cls) && StarMatches(cls, rest, s[1..]) {
        var k: nat :| SplitAt(cls, rest, s[1..], k);
        SplitStep(cls, rest, s, k);
        assert k + 1 > 0;
      }
      if k: nat :| k > 0 && SplitAt(cls, rest, s, k) {
        SplitStep(cls, rest, s, k - 1);
      }
    }
  }

  // ----- Reading a string atom by atom -----

  /** What may follow an atom without being taken for its quantifier. */
  predicate StartsAtom(r: string) {
    r == "" || r[0] !in "*+"
  }

  /** The text stands for the item, whatever atom follows it. */
  ghost predicate ReadsAs(text: string, item: Item) {
    && text != "" && StartsAtom(text)
    && forall r :: StartsAtom(r) ==> Items(text + r) == Cons(item, Items(r))
  }

  lemma LiteralReads(atom: string, c: char)
    requires (atom == [c] && !IsSyntax(c)) || (atom == ['\\', c] && !IsAlphanumeric(c))
    ensures ReadsAs(atom, Item(Literal(c), One))
  {
    forall r | StartsAtom(r) ensures Items(atom + r) == Cons(Item(Literal(c), One), Items(r)) {
      assert (atom + r)[|atom|..] == r;
    }
  }

  lemma RangeStep(lo: char, hi: char, rest: string, cls: Class, after: string)
    requires IsAlphanumeric(lo) && IsAlphanumeric(hi)
    requires ClassBody(rest) == Some((cls, after))
    ensures ClassBody([lo, '-', hi] + rest) == Some(([(lo, hi)] + cls, after))
  {
    var r := [lo, '-', hi] + rest;
    assert r[1..] == ['-', hi] + rest;
    assert r[1..][1..] == [hi] + rest;
    assert r[1..][1..][1..] == rest;
  }

  lemma EscapeStep(c: char, rest: string, cls: Class, after: string)
    requires !IsAlphanumeric(c) && rest != "" && rest[0] != '-'
    requires ClassBody(rest) == Some((cls, after))
    ensures ClassBody(['\\', c] + rest) == Some(([(c, c)] + cls, after))
  {
    var r := ['\\', c] + rest;
    assert r[2..] == rest;
  }

  lemma CloseStep(after: string)
    ensures ClassBody("]" + after) == Some(([], after))
  {
    assert ("]" + after)[1..] == after;
  }

  lemma QuantifiedStep(text: string, cls: Class, quantifier: Quantifier, mark: char, r: string)
    requires (quantifier == Star && mark == '*') || (quantifier == Plus && mark == '+')
    requires Atom(text) == Some((cls, [mark] + r))
    ensures Items(text) == Cons(Item(cls, quantifier), Items(r))
  {
    assert ([mark] + r)[1..] == r;
  }

  lemma BracketAtom(text: string, cls: Class, rest: string)
    requires |text| >= 2 && text[0] == '[' && text[1] != '^' && ClassBody(text[1..]) == Some((cls, rest))
    ensures Atom(text) == Some((cls, rest))
  {
  }

  lemma BracketText(body: string, mark: char, r: string)
    requires body != ""
    ensures "[" + body + [mark] + r == "[" + (body + ([mark] + r))
    ensures ("[" + (body + ([mark] + r)))[1..] == body + ([mark] + r)
    ensures ("[" + (body + ([mark] + r)))[1] == body[0]
  {
  }

  /** The body of a class, read whatever comes after it. */
  ghost predicate BodyReads(body: string, cls: Class) {
    forall rest :: ClassBody(body + rest) == Some((cls, rest))
  }

  lemma ClassReadsBefore(body: string, cls: Class, quantifier: Quantifier, mark: char, r: string)
    requires body != "" && body[0] != '^'
    requires (quantifier == Star && mark == '*') || (quantifier == Plus && mark == '+')
    requires BodyReads(body, cls)
    ensures Items("[" + body + [mark] + r) == Cons(Item(cls, quantifier), Items(r))
  {
    assert ClassBody(body + ([mark] + r)) == Some((cls, [mark] + r));
    BracketText(body, mark, r);
    BracketAtom("[" + (body + ([mark] + r)), cls, [mark] + r);
    QuantifiedStep("[" + (body + ([mark] + r)), cls, quantifier, mark, r);
  }

  lemma ReadsIfItemsDo(text: string, item: Item)
    requires text != "" && StartsAtom(text)
    requires forall r :: StartsAtom(r) ==> Items(text + r) == Cons(item, Items(r))
    ensures ReadsAs(text, item)
  {
  }

  /** A bracketed class and its quantifier read as one item. */
  lemma ClassReads(body: string, cls: Class, quantifier: Quantifier, mark: char)
    requires body != "" && body[0] != '^'
    requires (quantifier == Star && mark == '*') || (quantifier == Plus && mark == '+')
    requires BodyReads(body, cls)
    ensures ReadsAs("[" + body + [mark], Item(cls, quantifier))
  {
    var text := "[" + body + [mark];
    assert text[0] == '[';
    forall r | StartsAtom(r) ensures Items(text + r) == Cons(Item(cls, quantifier), Items(r)) {
      ClassReadsBefore(body, cls, quantifier, mark, r);
    }
    ReadsIfItemsDo(text, Item(cls, quantifier));
  }
}
