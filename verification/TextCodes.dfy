/** The codes of escaped text. */
module TextCodes {
  // Which code stands where in escaped text.

  import opened TextUtils

  lemma {:induction false} SubstituteConcat(a: string, b: string, special: set<char>)
    requires special <= SPECIAL
    ensures Substitute(a + b, special) == Substitute(a, special) + Substitute(b, special)
  {
    if a == "" {
      assert a + b == b;
    } else {
      assert (a + b)[1..] == a[1..] + b;
      SubstituteConcat(a[1..], b, special);
      Regroup(Coded(a[0], special), Substitute(a[1..], special), Substitute(b, special));
    }
  }

  /** Main result on the codes: wherever a character stands, its code stands in its place, and
      the rest of the text is escaped by itself. */
  lemma EscapeThere(a: string, c: char, b: string)
    ensures Escape(a + [c] + b) == Escape(a) + (
      if c == '&' then "&amp;" else if c == '<' then "&lt;" else if c == '>' then "&gt;"
      else if c == '\"' then "&quot;" else if c == '\'' then "&#39;" else [c]) + Escape(b)
  {
    EscapeIsOnePass(a + [c] + b);
    EscapeIsOnePass(a);
    EscapeIsOnePass(b);
    SubstituteConcat(a + [c], b, SPECIAL);
    SubstituteConcat(a, [c], SPECIAL);
    CodeOfOne(c);
  }

  lemma CodeOfOne(c: char)
    ensures Substitute([c], SPECIAL) ==
      if c == '&' then "&amp;" else if c == '<' then "&lt;" else if c == '>' then "&gt;"
      else if c == '\"' then "&quot;" else if c == '\'' then "&#39;" else [c]
  {
    assert [c][1..] == "";
  }
}
