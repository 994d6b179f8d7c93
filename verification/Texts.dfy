/** Cutting texts at separators. */
module Texts {
  function Split(text: string, separates: char -> bool): (parts: seq<string>)
    ensures parts != []
  {
    if text == "" then [""]
    else
      var rest := Split(text[1..], separates);
      if separates(text[0]) then [""] + rest else [[text[0]] + rest[0]] + rest[1..]
  }

  function IsSlash(c: char): bool { c == '/' }

  /** The parts of two texts set side by side: the last of one joins the first of the other. */
  function Glued(left: seq<string>, right: seq<string>): seq<string>
    requires left != [] && right != []
  {
    left[..|left| - 1] + [left[|left| - 1] + right[0]] + right[1..]
  }

  lemma GluedCons(first: string, left: seq<string>, right: seq<string>)
    requires left != [] && right != []
    ensures Glued([first] + left, right) == [first] + Glued(left, right)
  {
    assert ([first] + left)[..|left|] == [first] + left[..|left| - 1];
  }

  lemma GluedLonger(c: char, left: seq<string>, right: seq<string>)
    requires left != [] && right != []
    ensures Glued([[c] + left[0]] + left[1..], right) == [[c] + Glued(left, right)[0]] + Glued(left, right)[1..]
  {
    var longer := [[c] + left[0]] + left[1..];
    if |left| == 1 {
      assert ([c] + left[0]) + right[0] == [c] + (left[0] + right[0]);
    } else {
      assert longer[|longer| - 1] == left[|left| - 1];
    }
  }

  lemma {:induction false} SplitAppend(a: string, b: string, separates: char -> bool)
    ensures Split(a + b, separates) == Glued(Split(a, separates), Split(b, separates))
    decreases |a|
  {
    var right := Split(b, separates);
    if a == "" {
      assert a + b == b;
      assert "" + right[0] == right[0];
    } else {
      assert (a + b)[0] == a[0] && (a + b)[1..] == a[1..] + b;
      SplitAppend(a[1..], b, separates);
      if separates(a[0]) {
        GluedCons("", Split(a[1..], separates), right);
      } else {
        GluedLonger(a[0], Split(a[1..], separates), right);
      }
    }
  }

  lemma SplitAt(a: string, c: char, b: string, separates: char -> bool)
    requires separates(c)
    ensures Split(a + [c] + b, separates) == Split(a, separates) + Split(b, separates)
  {
    var left, right := Split(a, separates), Split(b, separates);
    assert ([c] + b)[1..] == b;
    assert a + [c] + b == a + ([c] + b);
    SplitAppend(a, [c] + b, separates);
    assert left[|left| - 1] + "" == left[|left| - 1];
    assert Glued(left, [""] + right) == left + right;
  }

  lemma {:induction false} NoSeparator(text: string, separates: char -> bool)
    requires forall c | c in text :: !separates(c)
    ensures Split(text, separates) == [text]
  {
    if text != "" {
      assert forall c | c in text[1..] :: c in text;
      assert text[0] in text;
      NoSeparator(text[1..], separates);
      assert text == [text[0]] + text[1..];
    }
  }
}
