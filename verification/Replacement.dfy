/**
 The in-place string replacement of the access control list, and what ordered replacement
 passes over a pattern come to.
 */
module Replacement {

  // ----- ReplaceString -----

  /** Every occurrence replaced, leftmost first, without overlap. */
  function Replaced(subject: string, search: string, replace: string): string
    requires search != ""
    decreases |subject|
  {
    if subject == "" then ""
    else if search <= subject then replace + Replaced(subject[|search|..], search, replace)
    else [subject[0]] + Replaced(subject[1..], search, replace)
  }

  predicate OccursAt(subject: string, search: string, pos: nat) {
    pos + |search| <= |subject| && subject[pos..pos + |search|] == search
  }

  lemma OccursInTail(subject: string, search: string, from: nat, pos: nat)
    requires from <= |subject|
    ensures OccursAt(subject[from..], search, pos) <==> OccursAt(subject, search, from + pos)
  {
    if from + pos + |search| <= |subject| {
      assert subject[from..][pos..pos + |search|] == subject[from + pos..from + pos + |search|];
    }
  }

  lemma {:induction false} SkippedTo(subject: string, search: string, replace: string, pos: nat)
    requires search != "" && pos <= |subject|
    requires forall p: nat :: p < pos ==> !OccursAt(subject, search, p)
    ensures Replaced(subject, search, replace) == subject[..pos] + Replaced(subject[pos..], search, replace)
    decreases pos
  {
    if pos == 0 {
      assert subject[0..] == subject;
    } else {
      assert !OccursAt(subject, search, 0);
      var tail := subject[1..];
      forall p: nat | p < pos - 1 ensures !OccursAt(tail, search, p) {
        OccursInTail(subject, search, 1, p);
      }
      SkippedTo(tail, search, replace, pos - 1);
      assert tail[pos - 1..] == subject[pos..];
      assert subject[..pos] == [subject[0]] + tail[..pos - 1];
    }
  }

  lemma TailSkipped(subject: string, search: string, from: nat, to: nat)
    requires from <= to <= |subject|
    requires forall p: nat :: from <= p < to ==> !OccursAt(subject, search, p)
    ensures forall p: nat :: p < to - from ==> !OccursAt(subject[from..], search, p)
  {
    forall p: nat | p < to - from ensures !OccursAt(subject[from..], search, p) {
      OccursInTail(subject, search, from, p);
    }
  }

  lemma SplitAgain(subject: string, from: nat, to: nat, rest: string)
    requires from <= to <= |subject|
    ensures subject[from..][to - from..] == subject[to..]
    ensures subject[..from] + (subject[from..][..to - from] + rest) == subject[..to] + rest
  {
    assert subject[..to] == subject[..from] + subject[from..][..to - from];
  }

  lemma SkippedFrom(subject: string, search: string, replace: string, from: nat, to: nat)
    requires search != "" && from <= to <= |subject|
    requires forall p: nat :: from <= p < to ==> !OccursAt(subject, search, p)
    ensures subject[..from] + Replaced(subject[from..], search, replace)
         == subject[..to] + Replaced(subject[to..], search, replace)
  {
    TailSkipped(subject, search, from, to);
    SkippedTo(subject[from..], search, replace, to - from);
    SplitAgain(subject, from, to, Replaced(subject[to..], search, replace));
  }

  /** One replacement in place keeps what the remaining replacements will make of the text. */
  lemma ReplacedAt(before: string, search: string, replace: string, tail: string)
    requires search != ""
    ensures before + Replaced(search + tail, search, replace)
         == (before + replace) + Replaced(tail, search, replace)
  {
    assert search <= search + tail;
    assert (search + tail)[|search|..] == tail;
  }

  /** std::string::find from a position; the length of the subject stands for npos. */
  method Find(subject: string, search: string, from: nat) returns (pos: nat)
    requires search != "" && from <= |subject|
    ensures from <= pos <= |subject|
    ensures pos < |subject| ==> OccursAt(subject, search, pos)
    ensures forall p: nat :: from <= p < pos ==> !OccursAt(subject, search, p)
  {
    pos := from;
    while pos < |subject| && !(pos + |search| <= |subject| && subject[pos..pos + |search|] == search)
      invariant from <= pos <= |subject|
      invariant forall p: nat :: from <= p < pos ==> !OccursAt(subject, search, p)
    {
      pos := pos + 1;
    }
  }

  /** One turn of ReplaceString: the occurrence at pos is replaced and the next one looked up. */
  method ReplaceOne(input: string, search: string, replace: string, pos: nat) returns (subject: string, next: nat)
    requires search != "" && OccursAt(input, search, pos)
    ensures next <= |subject| && |subject| - next <= |input| - pos - |search|
    ensures next < |subject| ==> OccursAt(subject, search, next)
    ensures subject[..next] + Replaced(subject[next..], search, replace)
         == input[..pos] + Replaced(input[pos..], search, replace)
  {
    var before, tail := input[..pos], input[pos + |search|..];
    subject := before + replace + tail;
    var after := pos + |replace|;
    assert subject[..after] == before + replace && subject[after..] == tail;
    assert input[pos..] == search + tail;
    ReplacedAt(before, search, replace, tail);
    next := Find(subject, search, after);
    SkippedFrom(subject, search, replace, after, next);
  }

  /** ReplaceString: the occurrences are found and replaced one by one, past what was written. */
  method ReplaceString(input: string, search: string, replace: string) returns (subject: string)
    requires search != ""
    ensures subject == Replaced(input, search, replace)
  {
    subject := input;
    var pos: nat := Find(subject, search, 0);
    SkippedTo(subject, search, replace, pos);
    while pos != |subject|
      invariant pos <= |subject| && (pos < |subject| ==> OccursAt(subject, search, pos))
      invariant subject[..pos] + Replaced(subject[pos..], search, replace) == Replaced(input, search, replace)
      decreases |subject| - pos
    {
      subject, pos := ReplaceOne(subject, search, replace, pos);
    }
  }

  // ----- What a replacement makes of a concatenation -----

  /** Text that holds no first character of the search is left alone, whatever follows it. */
  lemma {:induction false} LeftAlone(text: string, tail: string, search: string, replace: string)
    requires search != "" && search[0] !in text
    ensures Replaced(text + tail, search, replace) == text + Replaced(tail, search, replace)
  {
    if text == "" {
      assert text + tail == tail;
    } else {
      assert (text + tail)[1..] == text[1..] + tail;
      assert (text + tail)[0] == text[0];
      LeftAlone(text[1..], tail, search, replace);
    }
  }

  function Rewritten(x: char, c: char, replace: string): string {
    if x == c then replace else [x]
  }

  /** Replacing a single character works character by character. */
  lemma OneCharacter(x: char, tail: string, c: char, replace: string)
    ensures Replaced([x] + tail, [c], replace) == Rewritten(x, c, replace) + Replaced(tail, [c], replace)
  {
    assert ([x] + tail)[1..] == tail;
    assert ([x] + tail)[0] == x && [c][0] == c;
  }

  lemma {:induction false} Distributes(text: string, tail: string, c: char, replace: string)
    ensures Replaced(text + tail, [c], replace) == Replaced(text, [c], replace) + Replaced(tail, [c], replace)
  {
    if text == "" {
      assert text + tail == tail;
    } else {
      var x, more := text[0], text[1..];
      assert text + tail == [x] + (more + tail);
      OneCharacter(x, more + tail, c, replace);
      assert text == [x] + more;
      OneCharacter(x, more, c, replace);
      Distributes(more, tail, c, replace);
    }
  }

  /** A single pass that rewrites each character by what stands before and after it. */
  function Pass(p: string, afterColon: bool, piece: (bool, char, bool) -> string): string {
    if p == "" then ""
    else piece(afterColon, p[0], ColonFirst(p[1..])) + Pass(p[1..], p[0] == ':', piece)
  }

  predicate ColonFirst(p: string) {
    p != "" && p[0] == ':'
  }

  /** Replacing a single character in the result of a pass replaces it in every piece. */
  lemma {:induction false} PassReplaced(p: string, afterColon: bool, piece: (bool, char, bool) -> string,
      c: char, replace: string, whole: (bool, char, bool) -> string)
    requires forall before, x, after :: whole(before, x, after) == Replaced(piece(before, x, after), [c], replace)
    ensures Replaced(Pass(p, afterColon, piece), [c], replace) == Pass(p, afterColon, whole)
  {
    if p != "" {
      Distributes(piece(afterColon, p[0], ColonFirst(p[1..])), Pass(p[1..], p[0] == ':', piece), c, replace);
      PassReplaced(p[1..], p[0] == ':', piece, c, replace, whole);
    }
  }

  /** Text without the searched character is its own replacement. */
  lemma Kept(text: string, c: char, replace: string)
    requires c !in text
    ensures Replaced(text, [c], replace) == text
  {
    LeftAlone(text, "", [c], replace);
    assert text + "" == text;
  }

  lemma RewrittenAlone(x: char, c: char, replace: string)
    ensures Replaced([x], [c], replace) == Rewritten(x, c, replace)
  {
    OneCharacter(x, "", c, replace);
    assert [x] + "" == [x];
    assert Rewritten(x, c, replace) + "" == Rewritten(x, c, replace);
  }

  function Plain(afterColon: bool, x: char, beforeColon: bool): string {
    [x]
  }

  /** A pass that writes every character as it is changes nothing. */
  lemma {:induction false} PlainPass(p: string, afterColon: bool)
    ensures Pass(p, afterColon, Plain) == p
  {
    if p != "" {
      PlainPass(p[1..], p[0] == ':');
    }
  }
}
