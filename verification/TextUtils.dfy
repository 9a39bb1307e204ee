/** Escaping and unescaping the text of packets. */
module TextUtils {
  // `TextUtils.escape` and `TextUtils.unescape`: five sequential global
  // replacements each, related to one character-by-character substitution.

  import opened Options

  // ---------------------------------------------------------------- replacing

  predicate StartsWith(s: string, w: string) {
    |w| <= |s| && s[..|w|] == w
  }

  ghost predicate Contains(s: string, w: string) {
    exists i :: 0 <= i <= |s| && StartsWith(s[i..], w)
  }

  /** `source.indexOf(w)` */
  function IndexOf(s: string, w: string): int {
    if StartsWith(s, w) then 0
    else if s == "" then -1
    else var i := IndexOf(s[1..], w); if i == -1 then -1 else i + 1
  }

  /** A global regular-expression replacement of the literal `w`, leftmost first. */
  function Replace(s: string, w: string, sub: string): string
    requires w != ""
  {
    if s == "" then ""
    else if StartsWith(s, w) then sub + Replace(s[|w|..], w, sub)
    else [s[0]] + Replace(s[1..], w, sub)
  }

  /** One guarded pass of the program. */
  function Pass(s: string, w: string, sub: string): string
    requires w != ""
  {
    if IndexOf(s, w) != -1 then Replace(s, w, sub) else s
  }

  function Escape(source: string): string {
    var s1 := Pass(source, "&", "&amp;");
    var s2 := Pass(s1, "<", "&lt;");
    var s3 := Pass(s2, ">", "&gt;");
    var s4 := Pass(s3, "\"", "&quot;");
    Pass(s4, "\'", "&#39;")
  }

  function Unescape(source: string): string {
    UnescapeMarkup(Pass(source, "&amp;", "&"))
  }

  /** The last four passes of `unescape`. */
  function UnescapeMarkup(source: string): string {
    var s2 := Pass(source, "&lt;", "<");
    var s3 := Pass(s2, "&gt;", ">");
    var s4 := Pass(s3, "&quot;", "\"");
    Pass(s4, "&#39;", "\'")
  }

  // ---------------------------------------------------------------- one pass

  const SPECIAL: set<char> := {'&', '<', '>', '\"', '\''}

  function Entity(c: char): (e: string)
    requires c in SPECIAL
    ensures |e| >= 4 && e[0] == '&' && forall i :: 0 < i < |e| ==> e[i] !in SPECIAL
  {
    match c
    case '&' => "&amp;"
    case '<' => "&lt;"
    case '>' => "&gt;"
    case '\"' => "&quot;"
    case _ => "&#39;"
  }

  lemma EntitiesDiffer(c: char, d: char)
    requires c in SPECIAL && d in SPECIAL && c != d
    ensures Entity(c)[1] != Entity(d)[1]
  {
  }

  function Coded(c: char, special: set<char>): string
    requires special <= SPECIAL
  {
    if c in special then Entity(c) else [c]
  }

  /** The character-by-character substitution of the characters in `special`. */
  function Substitute(s: string, special: set<char>): string
    requires special <= SPECIAL
  {
    if s == "" then "" else Coded(s[0], special) + Substitute(s[1..], special)
  }

  lemma {:induction false} IndexOfFinds(s: string, w: string)
    ensures IndexOf(s, w) != -1 <==> Contains(s, w)
    ensures IndexOf(s, w) >= -1
  {
    if StartsWith(s, w) {
      assert s[0..] == s;
    } else if s != "" {
      IndexOfFinds(s[1..], w);
      if Contains(s[1..], w) {
        var i :| 0 <= i <= |s[1..]| && StartsWith(s[1..][i..], w);
        assert s[1..][i..] == s[i + 1..];
      }
      if Contains(s, w) {
        var i :| 0 <= i <= |s| && StartsWith(s[i..], w);
        assert i > 0 by {
          assert s[0..] == s;
        }
        assert s[1..][i - 1..] == s[i..];
      }
    }
  }

  lemma {:induction false} ReplaceAbsent(s: string, w: string, sub: string)
    requires w != "" && !Contains(s, w)
    ensures Replace(s, w, sub) == s
  {
    assert s[0..] == s;
    if s != "" {
      ContainsTail(s, w);
      ReplaceAbsent(s[1..], w, sub);
    }
  }

  lemma ContainsTail(s: string, w: string)
    requires s != "" && w != ""
    ensures Contains(s, w) <==> StartsWith(s, w) || Contains(s[1..], w)
  {
    assert s[0..] == s;
    if Contains(s[1..], w) {
      var i :| 0 <= i <= |s[1..]| && StartsWith(s[1..][i..], w);
      assert s[1..][i..] == s[i + 1..];
    }
    if Contains(s, w) && !StartsWith(s, w) {
      var i :| 0 <= i <= |s| && StartsWith(s[i..], w);
      assert s[1..][i - 1..] == s[i..];
    }
  }

  /** The guard of a pass is only a short cut. */
  lemma PassIsReplace(s: string, w: string, sub: string)
    requires w != ""
    ensures Pass(s, w, sub) == Replace(s, w, sub)
  {
    IndexOfFinds(s, w);
    if !Contains(s, w) {
      ReplaceAbsent(s, w, sub);
    }
  }

  lemma ReplaceCharStep(a: string, c: char, sub: string)
    requires a != ""
    ensures Replace(a, [c], sub) == (if a[0] == c then sub else [a[0]]) + Replace(a[1..], [c], sub)
  {
    assert a[..1] == [a[0]];
  }

  /** Replacing one character goes through a concatenation. */
  lemma {:induction false} ReplaceCharConcat(a: string, b: string, c: char, sub: string)
    ensures Replace(a + b, [c], sub) == Replace(a, [c], sub) + Replace(b, [c], sub)
  {
    if a == "" {
      assert a + b == b;
    } else {
      ReplaceCharConcat(a[1..], b, c, sub);
      var head := if a[0] == c then sub else [a[0]];
      ReplaceCharStep(a, c, sub);
      ReplaceCharStep(a + b, c, sub);
      assert (a + b)[1..] == a[1..] + b;
      Regroup(head, Replace(a[1..], [c], sub), Replace(b, [c], sub));
    }
  }

  lemma Regroup(a: string, b: string, c: string)
    ensures a + (b + c) == a + b + c
  {
  }

  lemma {:induction false} ReplaceCharAbsent(a: string, c: char, sub: string)
    requires c !in a
    ensures Replace(a, [c], sub) == a
  {
    if a != "" {
      ReplaceCharAbsent(a[1..], c, sub);
    }
  }

  /** A pass of `escape` for a character other than '&' extends the substitution. */
  lemma {:induction false} EscapePass(s: string, special: set<char>, c: char)
    requires special <= SPECIAL && c in SPECIAL && c !in special && (c == '&' ==> special == {})
    ensures Replace(Substitute(s, special), [c], Entity(c)) == Substitute(s, special + {c})
  {
    if s != "" {
      var head := Coded(s[0], special);
      EscapePass(s[1..], special, c);
      ReplaceCharConcat(head, Substitute(s[1..], special), c, Entity(c));
      if s[0] == c {
        assert Replace("", [c], Entity(c)) == "";
        assert Replace([c], [c], Entity(c)) == Entity(c);
      } else {
        ReplaceCharAbsent(head, c, Entity(c));
      }
    }
  }

  lemma {:induction false} SubstituteNothing(s: string)
    ensures Substitute(s, {}) == s
  {
    if s != "" {
      SubstituteNothing(s[1..]);
    }
  }

  lemma NextPass(s: string, special: set<char>, c: char)
    requires special <= SPECIAL && c in SPECIAL && c !in special && (c == '&' ==> special == {})
    ensures Pass(Substitute(s, special), [c], Entity(c)) == Substitute(s, special + {c})
  {
    EscapePass(s, special, c);
    PassIsReplace(Substitute(s, special), [c], Entity(c));
  }

  const TAGS: set<char> := {'&', '<', '>'}

  lemma TagPasses(s: string)
    ensures Pass(Pass(Pass(s, "&", "&amp;"), "<", "&lt;"), ">", "&gt;") == Substitute(s, TAGS)
  {
    SubstituteNothing(s);
    NextPass(s, {}, '&');
    NextPass(s, {} + {'&'}, '<');
    NextPass(s, {} + {'&'} + {'<'}, '>');
    assert {} + {'&'} + {'<'} + {'>'} == TAGS;
  }

  lemma QuotePasses(s: string)
    ensures Pass(Pass(Substitute(s, TAGS), "\"", "&quot;"), "\'", "&#39;") == Substitute(s, SPECIAL)
  {
    NextPass(s, TAGS, '\"');
    NextPass(s, TAGS + {'\"'}, '\'');
    assert TAGS + {'\"'} + {'\''} == SPECIAL;
  }

  /** Main result: the five passes of `escape` are one simultaneous substitution. */
  lemma EscapeIsOnePass(s: string)
    ensures Escape(s) == Substitute(s, SPECIAL)
  {
    TagPasses(s);
    QuotePasses(s);
  }

  /** What can stand where in escaped text: no markup, and '&' only to start an entity. */
  lemma {:induction false} SubstituteHides(s: string, c: char)
    requires c in SPECIAL && c != '&'
    ensures c !in Substitute(s, SPECIAL)
  {
    if s != "" {
      SubstituteHides(s[1..], c);
    }
  }

  lemma EscapeHides(s: string)
    ensures '<' !in Escape(s) && '>' !in Escape(s) && '\"' !in Escape(s) && '\'' !in Escape(s)
  {
    EscapeIsOnePass(s);
    SubstituteHides(s, '<');
    SubstituteHides(s, '>');
    SubstituteHides(s, '\"');
    SubstituteHides(s, '\'');
  }

  lemma CodesDiffer(c: char, d: char, x: string, y: string)
    requires c != d
    ensures Coded(c, SPECIAL) + x != Coded(d, SPECIAL) + y
  {
    var u, v := Coded(c, SPECIAL) + x, Coded(d, SPECIAL) + y;
    if c in SPECIAL && d in SPECIAL {
      EntitiesDiffer(c, d);
      assert u[1] == Entity(c)[1] && v[1] == Entity(d)[1];
    } else {
      assert u[0] == Coded(c, SPECIAL)[0] && v[0] == Coded(d, SPECIAL)[0];
    }
  }

  lemma {:induction false} SubstituteInjective(s: string, t: string)
    requires Substitute(s, SPECIAL) == Substitute(t, SPECIAL)
    ensures s == t
  {
    if s != "" && t != "" {
      if s[0] != t[0] {
        CodesDiffer(s[0], t[0], Substitute(s[1..], SPECIAL), Substitute(t[1..], SPECIAL));
      }
      var a := Coded(s[0], SPECIAL);
      assert Substitute(s, SPECIAL)[|a|..] == Substitute(s[1..], SPECIAL);
      assert Substitute(t, SPECIAL)[|a|..] == Substitute(t[1..], SPECIAL);
      SubstituteInjective(s[1..], t[1..]);
      assert s == [s[0]] + s[1..] && t == [t[0]] + t[1..];
    }
  }

  /** Main result: escaping loses nothing. */
  lemma EscapeInjective(s: string, t: string)
    requires Escape(s) == Escape(t)
    ensures s == t
  {
    EscapeIsOnePass(s);
    EscapeIsOnePass(t);
    SubstituteInjective(s, t);
  }

  // ---------------------------------------------------------------- and back

  /** Text without the first character of `w` is copied. */
  lemma {:induction false} ReplaceSkips(y: string, x: string, w: string, sub: string)
    requires w != "" && w[0] !in y
    ensures Replace(y + x, w, sub) == y + Replace(x, w, sub)
  {
    if y == "" {
      assert y + x == x;
    } else {
      assert (y + x)[1..] == y[1..] + x;
      assert (y + x)[0] == y[0];
      ReplaceSkips(y[1..], x, w, sub);
    }
  }

  /** The entity of another character is copied as well. */
  lemma ReplaceSkipsEntity(d: char, x: string, c: char)
    requires c in SPECIAL && d in SPECIAL && c != d
    ensures Replace(Entity(d) + x, Entity(c), [c]) == Entity(d) + Replace(x, Entity(c), [c])
  {
    var e := Entity(d);
    EntitiesDiffer(c, d);
    assert (e + x)[1] == e[1];
    assert (e + x)[1..] == e[1..] + x;
    ReplaceSkips(e[1..], x, Entity(c), [c]);
    assert e == [e[0]] + e[1..];
  }

  /** Its own entity is replaced. */
  lemma ReplaceHits(c: char, x: string)
    requires c in SPECIAL
    ensures Replace(Entity(c) + x, Entity(c), [c]) == [c] + Replace(x, Entity(c), [c])
  {
    assert (Entity(c) + x)[..|Entity(c)|] == Entity(c);
    assert (Entity(c) + x)[|Entity(c)|..] == x;
  }

  /** The first pass of `unescape` undoes the first pass of `escape`. */
  lemma {:induction false} UnescapeAmp(s: string)
    ensures Replace(Substitute(s, SPECIAL), "&amp;", "&") == Substitute(s, SPECIAL - {'&'})
  {
    if s != "" {
      var rest := Substitute(s[1..], SPECIAL);
      UnescapeAmp(s[1..]);
      assert "&amp;" == Entity('&') && "&" == ['&'];
      if s[0] == '&' {
        ReplaceHits('&', rest);
      } else if s[0] in SPECIAL {
        ReplaceSkipsEntity(s[0], rest, '&');
      } else {
        ReplaceSkips([s[0]], rest, "&amp;", "&");
      }
    }
  }

  /** Plain text at the start of substituted text stood there before. */
  lemma {:induction false} SubstitutePrefix(t: string, w: string, special: set<char>)
    requires special <= SPECIAL && (forall c :: c in w ==> c !in SPECIAL)
    requires StartsWith(Substitute(t, special), w)
    ensures StartsWith(t, w)
  {
    if w != "" {
      assert Substitute(t, special)[0] == w[0];
      assert Substitute(t, special)[..|w|][1..] == Substitute(t[1..], special)[..|w| - 1];
      SubstitutePrefix(t[1..], w[1..], special);
      assert w == [w[0]] + w[1..];
    }
  }

  lemma {:induction false} SubstitutePlain(w: string, x: string, special: set<char>)
    requires special <= SPECIAL && (forall c :: c in w ==> c !in special)
    ensures Substitute(w + x, special) == w + Substitute(x, special)
  {
    if w == "" {
      assert w + x == x;
    } else {
      assert (w + x)[1..] == w[1..] + x;
      SubstitutePlain(w[1..], x, special);
    }
  }

  /** A later pass of `unescape` removes its character from the substitution, and
      otherwise acts on the text underneath. */
  lemma {:induction false} UnescapePass(s: string, special: set<char>, c: char)
    requires special <= SPECIAL - {'&'} && c in special
    ensures Replace(Substitute(s, special), Entity(c), [c]) == Substitute(Replace(s, Entity(c), [c]), special - {c})
    decreases |s|
  {
    var e := Entity(c);
    if s != "" {
      if StartsWith(s, e) {
        var rest := s[|e|..];
        assert s == e + rest;
        SubstitutePlain(e, rest, special);
        ReplaceHits(c, Substitute(rest, special));
        UnescapePass(rest, special, c);
        SubstitutePlain([c], Replace(rest, e, [c]), special - {c});
      } else {
        var rest := Substitute(s[1..], special);
        UnescapePass(s[1..], special, c);
        if s[0] == c {
          ReplaceHits(c, rest);
        } else if s[0] in special {
          ReplaceSkipsEntity(s[0], rest, c);
        } else if s[0] != '&' {
          ReplaceSkips([s[0]], rest, e, [c]);
        } else if StartsWith(Substitute(s, special), e) {
          NoEntityAppears(s, special, c);
        }
      }
    }
  }

  /** Substitution does not complete a half-written entity. */
  lemma NoEntityAppears(s: string, special: set<char>, c: char)
    requires special <= SPECIAL - {'&'} && c in special
    requires s != "" && s[0] == '&' && StartsWith(Substitute(s, special), Entity(c))
    ensures StartsWith(s, Entity(c))
  {
    var e := Entity(c);
    var t := Substitute(s, special);
    assert t[1..] == Substitute(s[1..], special);
    assert t[..|e|][1..] == t[1..][..|e| - 1];
    SubstitutePrefix(s[1..], e[1..], special);
    assert s[..|e|] == [s[0]] + s[1..][..|e| - 1];
    assert e == [e[0]] + e[1..];
  }

  /** The last four passes on substituted text act on the text underneath. */
  lemma MarkupUnderneath(s: string)
    ensures UnescapeMarkup(Substitute(s, SPECIAL - {'&'})) == UnescapeMarkup(s)
  {
    var k0 := SPECIAL - {'&'};
    var k1 := k0 - {'<'};
    var k2 := k1 - {'>'};
    var k3 := k2 - {'\"'};
    assert k3 - {'\''} == {};
    var s1 := Replace(s, Entity('<'), ['<']);
    var s2 := Replace(s1, Entity('>'), ['>']);
    var s3 := Replace(s2, Entity('\"'), ['\"']);
    UnescapePass(s, k0, '<');
    UnescapePass(s1, k1, '>');
    UnescapePass(s2, k2, '\"');
    UnescapePass(s3, k3, '\'');
    SubstituteNothing(Replace(s3, Entity('\''), ['\'']));
    MarkupPasses(s);
    MarkupPasses(Substitute(s, k0));
  }

  /** Unescaping escaped text is the same as running the last four passes on the
      text itself. */
  lemma UnescapeEscape(s: string)
    ensures Unescape(Escape(s)) == UnescapeMarkup(s)
  {
    EscapeIsOnePass(s);
    PassIsReplace(Escape(s), "&amp;", "&");
    UnescapeAmp(s);
    MarkupUnderneath(s);
  }

  lemma MarkupPasses(s: string)
    ensures UnescapeMarkup(s) ==
      Replace(Replace(Replace(Replace(s, Entity('<'), ['<']), Entity('>'), ['>']), Entity('\"'), ['\"']),
        Entity('\''), ['\''])
  {
    PassIsReplace(s, "&lt;", "<");
    var s1 := Replace(s, "&lt;", "<");
    PassIsReplace(s1, "&gt;", ">");
    var s2 := Replace(s1, "&gt;", ">");
    PassIsReplace(s2, "&quot;", "\"");
    PassIsReplace(Replace(s2, "&quot;", "\""), "&#39;", "\'");
  }

  lemma {:induction false} ReplaceShrinks(s: string, w: string, c: char)
    requires |w| > 1
    ensures |Replace(s, w, [c])| <= |s|
    ensures Contains(s, w) ==> |Replace(s, w, [c])| < |s|
    decreases |s|
  {
    assert s[0..] == s;
    if s != "" {
      ContainsTail(s, w);
      ReplaceShrinks(if StartsWith(s, w) then s[|w|..] else s[1..], w, c);
    }
  }

  /** A pass changes the text exactly when there is something to replace. */
  lemma PassFixed(s: string, w: string, c: char)
    requires |w| > 1
    ensures |Replace(s, w, [c])| <= |s|
    ensures |Replace(s, w, [c])| == |s| ==> !Contains(s, w)
    ensures !Contains(s, w) ==> Replace(s, w, [c]) == s
  {
    ReplaceShrinks(s, w, c);
    if !Contains(s, w) {
      ReplaceAbsent(s, w, [c]);
    }
  }

  lemma FourPassesFixed(s: string, w1: string, w2: string, w3: string, w4: string)
    requires |w1| > 1 && |w2| > 1 && |w3| > 1 && |w4| > 1
    ensures Replace(Replace(Replace(Replace(s, w1, ['<']), w2, ['>']), w3, ['\"']), w4, ['\'']) == s
      <==> !Contains(s, w1) && !Contains(s, w2) && !Contains(s, w3) && !Contains(s, w4)
  {
    var s1 := Replace(s, w1, ['<']);
    var s2 := Replace(s1, w2, ['>']);
    var s3 := Replace(s2, w3, ['\"']);
    PassFixed(s, w1, '<');
    PassFixed(s1, w2, '>');
    PassFixed(s2, w3, '\"');
    PassFixed(s3, w4, '\'');
  }

  /** Main result: unescaping gives back the text exactly when the text contains
      none of the literal entities of '<', '>', '"' and '\''. */
  lemma RoundTrip(s: string)
    ensures Unescape(Escape(s)) == s
      <==> !Contains(s, "&lt;") && !Contains(s, "&gt;") && !Contains(s, "&quot;") && !Contains(s, "&#39;")
  {
    UnescapeEscape(s);
    MarkupPasses(s);
    FourPassesFixed(s, Entity('<'), Entity('>'), Entity('\"'), Entity('\''));
  }

  /** An input on which it does not: a text that speaks of an entity. */
  lemma EntityIsSwallowed()
    ensures Unescape(Escape("&lt;")) != "&lt;"
  {
    var s := "&lt;";
    assert StartsWith(s[0..], "&lt;");
    assert Contains(s, "&lt;");
    RoundTrip(s);
  }

  lemma ShorterAfterFour(s: string)
    ensures |UnescapeMarkup(s)| <= |s|
  {
    MarkupPasses(s);
    var s1 := Replace(s, Entity('<'), ['<']);
    var s2 := Replace(s1, Entity('>'), ['>']);
    var s3 := Replace(s2, Entity('\"'), ['\"']);
    PassFixed(s, Entity('<'), '<');
    PassFixed(s1, Entity('>'), '>');
    PassFixed(s2, Entity('\"'), '\"');
    PassFixed(s3, Entity('\''), '\'');
  }

  /** Unescaping leaves a text as it is exactly when none of the five entities occurs. */
  lemma UnescapeKeeps(s: string)
    ensures Unescape(s) == s
      <==> !Contains(s, "&amp;") && !Contains(s, "&lt;") && !Contains(s, "&gt;") && !Contains(s, "&quot;")
           && !Contains(s, "&#39;")
  {
    PassIsReplace(s, "&amp;", "&");
    PassFixed(s, "&amp;", '&');
    var t := Replace(s, "&amp;", "&");
    ShorterAfterFour(t);
    MarkupPasses(t);
    FourPassesFixed(t, Entity('<'), Entity('>'), Entity('\"'), Entity('\''));
  }
}
