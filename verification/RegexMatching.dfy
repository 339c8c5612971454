/**
 Matching and searching: whole expressions of the fragment, with anchors and groups, matched
 between two positions of a text.
 */
module RegexMatching {
  import opened Common
  import opened RegexFragment

  /** An item, an assertion about the position, or the border of a group, which takes no text. */
  datatype Element = Char(item: Item) | Begin | End | Open | Close

  function Lead(e: Element, es: Option<seq<Element>>): Option<seq<Element>> {
    match es
    case None => None
    case Some(tail) => Some([e] + tail)
  }

  /** The elements of an expression inside so many groups, if it lies in the fragment. */
  function Elements(r: string, depth: nat): Option<seq<Element>>
    decreases |r|
  {
    if r == "" then (if depth == 0 then Some([]) else None)
    else if r[0] == '^' then Lead(Begin, Elements(r[1..], depth))
    else if r[0] == '$' then Lead(End, Elements(r[1..], depth))
    else if r[0] == '(' then (if |r| >= 2 && r[1] == '?' then None else Lead(Open, Elements(r[1..], depth + 1)))
    else if r[0] == ')' then (if depth == 0 then None else Lead(Close, Elements(r[1..], depth - 1)))
    else
      match Atom(r)
      case None => None
      case Some((cls, tail)) =>
        var q := QuantifierOf(tail);
        Lead(Char(Item(cls, q.0)), Elements(q.1, depth))
  }

  /** The elements match the text from position i to position j. */
  predicate Spans(es: seq<Element>, s: string, i: nat, j: nat)
    requires i <= |s|
    decreases |es|, |s| - i
  {
    if es == [] then i == j
    else
      match es[0]
      case Begin => i == 0 && Spans(es[1..], s, i, j)
      case End => i == |s| && Spans(es[1..], s, i, j)
      case Open => Spans(es[1..], s, i, j)
      case Close => Spans(es[1..], s, i, j)
      case Char(item) =>
        match item.quantifier
        case One => i < |s| && In(s[i], item.cls) && Spans(es[1..], s, i + 1, j)
        case Star => StarSpans(item.cls, es[1..], s, i, j)
        case Plus => i < |s| && In(s[i], item.cls) && StarSpans(item.cls, es[1..], s, i + 1, j)
  }

  predicate StarSpans(cls: Class, rest: seq<Element>, s: string, i: nat, j: nat)
    requires i <= |s|
    decreases |rest| + 1, |s| - i, 0
  {
    Spans(rest, s, i, j) || (i < |s| && In(s[i], cls) && StarSpans(cls, rest, s, i + 1, j))
  }

  /** std::regex_match: the expression matches from the beginning to the end. */
  predicate FullMatch(regex: string, s: string) {
    match Elements(regex, 0)
    case None => false
    case Some(es) => Spans(es, s, 0, |s|)
  }

  /** std::regex_search: it matches somewhere. */
  predicate Search(regex: string, s: string) {
    match Elements(regex, 0)
    case None => false
    case Some(es) => exists i, j :: 0 <= i <= j <= |s| && Spans(es, s, i, j)
  }

  // ----- Items among the elements -----

  function Chars(items: seq<Item>): seq<Element> {
    seq(|items|, k requires 0 <= k < |items| => Char(items[k]))
  }

  lemma CharsHead(items: seq<Item>, tail: seq<Element>)
    requires items != []
    ensures (Chars(items) + tail)[0] == Char(items[0]) && (Chars(items) + tail)[1..] == Chars(items[1..]) + tail
  {
  }

  /** What comes after the items matches nothing but the empty text at the end. */
  ghost predicate OnlyAtEnd(tail: seq<Element>, s: string, j: nat) {
    forall m: nat :: m <= |s| ==> (Spans(tail, s, m, j) <==> m == |s| == j)
  }

  lemma {:induction false} CharsSpan(items: seq<Item>, tail: seq<Element>, s: string, i: nat, j: nat)
    requires i <= |s| && OnlyAtEnd(tail, s, j)
    ensures Spans(Chars(items) + tail, s, i, j) <==> j == |s| && Matches(items, s[i..])
    decreases |items|, |s| - i
  {
    if items == [] {
      assert Chars(items) + tail == tail;
    } else {
      CharsHead(items, tail);
      match items[0].quantifier
      case One =>
        if i < |s| {
          assert s[i..][1..] == s[i + 1..];
          CharsSpan(items[1..], tail, s, i + 1, j);
        }
      case Star => StarCharsSpan(items[0].cls, items[1..], tail, s, i, j);
      case Plus =>
        if i < |s| {
          assert s[i..][1..] == s[i + 1..];
          StarCharsSpan(items[0].cls, items[1..], tail, s, i + 1, j);
        }
    }
  }

  lemma {:induction false} StarCharsSpan(cls: Class, rest: seq<Item>, tail: seq<Element>, s: string, i: nat, j: nat)
    requires i <= |s| && OnlyAtEnd(tail, s, j)
    ensures StarSpans(cls, Chars(rest) + tail, s, i, j) <==> j == |s| && StarMatches(cls, rest, s[i..])
    decreases |rest| + 1, |s| - i, 0
  {
    CharsSpan(rest, tail, s, i, j);
    if i < |s| {
      assert s[i..][1..] == s[i + 1..];
      StarCharsSpan(cls, rest, tail, s, i + 1, j);
    }
  }

  // ----- Reading on after the items -----

  lemma ClassAtomExtends(r: string, x: string)
    requires ClassAtom(r).Some?
    ensures ClassAtom(r + x) == Some((ClassAtom(r).value.0, ClassAtom(r).value.1 + x))
  {
    var n := |r| - |ClassAtom(r).value.1|;
    assert (r + x)[n..] == r[n..] + x;
  }

  lemma {:induction false} ClassBodyExtends(r: string, x: string)
    requires ClassBody(r).Some?
    ensures ClassBody(r + x) == Some((ClassBody(r).value.0, ClassBody(r).value.1 + x))
    decreases |r|
  {
    if r != "" && r[0] == ']' {
      assert (r + x)[1..] == r[1..] + x;
    } else {
      ClassAtomExtends(r, x);
      var tail := ClassAtom(r).value.1;
      if |tail| >= 2 && tail[0] == '-' && tail[1] != ']' {
        assert (tail + x)[1..] == tail[1..] + x;
        ClassAtomExtends(tail[1..], x);
        ClassBodyExtends(ClassAtom(tail[1..]).value.1, x);
      } else {
        ClassBodyExtends(tail, x);
      }
    }
  }

  lemma AtomExtends(r: string, x: string)
    requires Atom(r).Some?
    ensures Atom(r + x) == Some((Atom(r).value.0, Atom(r).value.1 + x))
  {
    if r[0] == '[' {
      assert (r + x)[1..] == r[1..] + x;
      ClassBodyExtends(r[1..], x);
    } else if r[0] == '\\' {
      assert (r + x)[2..] == r[2..] + x;
    } else {
      assert (r + x)[1..] == r[1..] + x;
    }
  }

  lemma QuantifierExtends(r: string, x: string)
    requires StartsAtom(x)
    ensures QuantifierOf(r + x) == (QuantifierOf(r).0, QuantifierOf(r).1 + x)
  {
    if r == "" {
      assert r + x == x;
    } else {
      assert (r + x)[1..] == r[1..] + x;
    }
  }

  function LeadAll(first: seq<Element>, es: Option<seq<Element>>): Option<seq<Element>> {
    match es
    case None => None
    case Some(tail) => Some(first + tail)
  }

  lemma LeadNothing(es: Option<seq<Element>>)
    ensures LeadAll(Chars([]), es) == es
  {
    if es.Some? { assert Chars([]) + es.value == es.value; }
  }

  lemma LeadOne(item: Item, items: seq<Item>, es: Option<seq<Element>>)
    ensures Lead(Char(item), LeadAll(Chars(items), es)) == LeadAll(Chars([item] + items), es)
  {
    assert Chars([item] + items) == [Char(item)] + Chars(items);
    if es.Some? { assert [Char(item)] + (Chars(items) + es.value) == ([Char(item)] + Chars(items)) + es.value; }
  }

  /** Plain items are read as such, whatever atom, anchor or border of a group follows. */
  lemma {:induction false} ItemsRead(r: string, x: string, depth: nat)
    requires Items(r).Some? && StartsAtom(x)
    ensures Elements(r + x, depth) == LeadAll(Chars(Items(r).value), Elements(x, depth))
    decreases |r|
  {
    if r == "" {
      assert r + x == x;
      LeadNothing(Elements(x, depth));
    } else {
      var q := QuantifierOf(Atom(r).value.1);
      ItemRead(r, x, depth);
      ItemsRead(q.1, x, depth);
      LeadOne(Item(Atom(r).value.0, q.0), Items(q.1).value, Elements(x, depth));
    }
  }

  /** An atom with its quantifier is read as such. */
  lemma ItemRead(r: string, x: string, depth: nat)
    requires Atom(r).Some? && StartsAtom(x)
    ensures var q := QuantifierOf(Atom(r).value.1);
      Elements(r + x, depth) == Lead(Char(Item(Atom(r).value.0, q.0)), Elements(q.1 + x, depth))
  {
    AtomExtends(r, x);
    QuantifierExtends(Atom(r).value.1, x);
    assert (r + x)[0] == r[0];
  }

  /** A match of plain items is one of the whole text. */
  lemma FullMatchItems(r: string, s: string)
    requires Items(r).Some?
    ensures FullMatch(r, s) <==> Matches(Items(r).value, s)
  {
    ItemsRead(r, "", 0);
    assert r + "" == r && Chars(Items(r).value) + [] == Chars(Items(r).value);
    CharsSpan(Items(r).value, [], s, 0, |s|);
    assert s[0..] == s;
  }

  // ----- Anchored groups -----

  lemma CloseEnd(s: string, j: nat)
    ensures OnlyAtEnd([Close, End], s, j)
  {
    assert [Close, End][1..] == [End] && [End][1..] == [];
    forall m: nat | m <= |s| ensures Spans([Close, End], s, m, j) <==> m == |s| == j {
      assert Spans([Close, End], s, m, j) <==> Spans([End], s, m, j);
      assert Spans([End], s, m, j) <==> m == |s| && Spans([], s, m, j);
    }
  }

  lemma GroupEnds()
    ensures Elements(")$", 1) == Some([Close, End])
  {
    assert ")$"[1..] == "$" && "$"[1..] == "";
    var nothing: seq<Element> := [];
    assert Elements("", 0) == Some(nothing);
    assert [End] + nothing == [End] && [Close] + [End] == [Close, End];
    assert Elements("$", 0) == Lead(End, Some(nothing));
  }

  lemma GroupText(body: string)
    requires Items(body).Some?
    ensures "^(" + body + ")$" == "^" + ("(" + (body + ")$"))
    ensures (body + ")$")[0] != '?'
  {
    if body != "" { assert (body + ")$")[0] == body[0]; }
  }

  lemma LeadGroup(es: seq<Element>)
    ensures Lead(Begin, Lead(Open, Some(es))) == Some([Begin, Open] + es)
  {
    assert [Begin] + ([Open] + es) == [Begin, Open] + es;
  }

  lemma AnchoredElements(body: string)
    requires Items(body).Some?
    ensures Elements("^(" + body + ")$", 0) == Some([Begin, Open] + (Chars(Items(body).value) + [Close, End]))
  {
    GroupText(body);
    GroupBegins(body + ")$");
    ItemsRead(body, ")$", 1);
    GroupEnds();
    LeadGroup(Chars(Items(body).value) + [Close, End]);
  }

  lemma GroupBegins(inner: string)
    requires inner != "" && inner[0] != '?'
    ensures Elements("^" + ("(" + inner), 0) == Lead(Begin, Lead(Open, Elements(inner, 1)))
  {
    assert ("^" + ("(" + inner))[1..] == "(" + inner;
    assert ("(" + inner)[1..] == inner && ("(" + inner)[1] == inner[0];
  }

  lemma SpansFrom(es: seq<Element>, s: string, i: nat, j: nat)
    requires i <= |s|
    ensures Spans([Begin, Open] + es, s, i, j) <==> i == 0 && Spans(es, s, i, j)
  {
    var all := [Begin, Open] + es;
    assert all[1..] == [Open] + es && ([Open] + es)[1..] == es;
  }

  /** An anchored group is found in a text exactly when its body matches all of it. */
  lemma AnchoredSearch(body: string, s: string)
    requires Items(body).Some?
    ensures Search("^(" + body + ")$", s) <==> FullMatch(body, s)
  {
    var items := Items(body).value;
    var es := Chars(items) + [Close, End];
    AnchoredElements(body);
    FullMatchItems(body, s);
    forall i: nat, j: nat | i <= j <= |s|
      ensures Spans([Begin, Open] + es, s, i, j) <==> i == 0 && j == |s| && Matches(items, s)
    {
      SpansFrom(es, s, i, j);
      CloseEnd(s, j);
      CharsSpan(items, [Close, End], s, i, j);
      assert s[0..] == s;
    }
    assert Spans([Begin, Open] + es, s, 0, |s|) <==> Matches(items, s);
  }
}
