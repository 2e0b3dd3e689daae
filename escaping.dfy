/**
 * `escapeHtml`, used to build the live preview: three successive
 * `replaceAll` passes, `&` first, then `<`, then `>`.
 */
module Escaping {

  /** `s.replaceAll(c, rep)` for a one-character pattern: every occurrence of
      `c`, left to right, becomes `rep`. JavaScript expands `$&`, `$$`, `` $` ``
      and `$'` in a replacement string, so the two agree when `rep` holds no
      `$`, as none of `&amp;`, `&lt;` and `&gt;` does. */
  function ReplaceAll(s: string, c: char, rep: string): (r: string)
    ensures c !in rep ==> c !in r
    ensures forall x :: x in r ==> x in rep || (x in s && x != c)
    ensures c !in s ==> r == s
  {
    if s == [] then []
    else (if s[0] == c then rep else [s[0]]) + ReplaceAll(s[1..], c, rep)
  }

  /** `replaceAll` distributes over concatenation. */
  lemma {:induction false} ReplaceAllAppend(a: string, b: string, c: char, rep: string)
    ensures ReplaceAll(a + b, c, rep) == ReplaceAll(a, c, rep) + ReplaceAll(b, c, rep)
  {
    if a == [] {
      assert a + b == b;
    } else {
      assert (a + b)[0] == a[0];
      assert (a + b)[1..] == a[1..] + b;
      ReplaceAllAppend(a[1..], b, c, rep);
    }
  }

  /** `escapeHtml`: the preview text with no `<` or `>` left in it. */
  function EscapeHtml(s: string): (r: string)
    ensures '<' !in r && '>' !in r
  {
    ReplaceAll(ReplaceAll(ReplaceAll(s, '&', "&amp;"), '<', "&lt;"), '>', "&gt;")
  }

  /** The entity a single character becomes. */
  function EscapeChar(c: char): string {
    if c == '&' then "&amp;" else if c == '<' then "&lt;" else if c == '>' then "&gt;" else [c]
  }

  /** Reference definition: escape each character on its own. */
  function EscapeEach(s: string): string {
    if s == [] then [] else EscapeChar(s[0]) + EscapeEach(s[1..])
  }

  /** The three passes distribute over concatenation. */
  lemma EscapeHtmlAppend(a: string, b: string)
    ensures EscapeHtml(a + b) == EscapeHtml(a) + EscapeHtml(b)
  {
    ReplaceAllAppend(a, b, '&', "&amp;");
    var a1, b1 := ReplaceAll(a, '&', "&amp;"), ReplaceAll(b, '&', "&amp;");
    ReplaceAllAppend(a1, b1, '<', "&lt;");
    var a2, b2 := ReplaceAll(a1, '<', "&lt;"), ReplaceAll(b1, '<', "&lt;");
    ReplaceAllAppend(a2, b2, '>', "&gt;");
  }

  /** On a one-character string `replaceAll` either replaces it or keeps it. */
  lemma ReplaceAllSingle(x: char, c: char, rep: string)
    ensures ReplaceAll([x], c, rep) == if x == c then rep else [x]
  {
    assert [x][1..] == [];
  }

  /** On one character the three passes produce exactly its entity. */
  lemma EscapeHtmlChar(c: char)
    ensures EscapeHtml([c]) == EscapeChar(c)
  {
    ReplaceAllSingle(c, '&', "&amp;");
    var a1 := ReplaceAll([c], '&', "&amp;");
    if c == '&' {
      assert '<' !in a1 && '>' !in a1;
    } else if c == '<' {
      ReplaceAllSingle(c, '<', "&lt;");
      assert '>' !in "&lt;";
    } else {
      ReplaceAllSingle(c, '<', "&lt;");
      ReplaceAllSingle(c, '>', "&gt;");
    }
  }

  /** Because `&` is replaced first, the three passes escape every character
      exactly once: no entity introduced by a later pass is escaped again. */
  lemma {:induction false} EscapeHtmlIsPerCharacter(s: string)
    ensures EscapeHtml(s) == EscapeEach(s)
  {
    if s != [] {
      assert s == [s[0]] + s[1..];
      EscapeHtmlAppend([s[0]], s[1..]);
      EscapeHtmlChar(s[0]);
      EscapeHtmlIsPerCharacter(s[1..]);
    }
  }

  /** One of the three entities starts at position `i` of `r`. */
  predicate EntityAt(r: string, i: nat) {
    (i + 5 <= |r| && r[i..i + 5] == "&amp;")
    || (i + 4 <= |r| && r[i..i + 4] == "&lt;")
    || (i + 4 <= |r| && r[i..i + 4] == "&gt;")
  }

  lemma EntityAtShift(a: string, b: string, j: nat)
    requires EntityAt(b, j)
    ensures EntityAt(a + b, |a| + j)
  {
    var r := a + b;
    if j + 5 <= |b| { assert r[|a| + j..|a| + j + 5] == b[j..j + 5]; }
    if j + 4 <= |b| { assert r[|a| + j..|a| + j + 4] == b[j..j + 4]; }
  }

  lemma EntityAtPrefix(a: string, b: string)
    requires a in {"&amp;", "&lt;", "&gt;"}
    ensures EntityAt(a + b, 0)
  {
    assert (a + b)[0..|a|] == a;
  }

  /** Every `&` of the escaped text begins `&amp;`, `&lt;` or `&gt;`. */
  lemma {:induction false} EscapeEachAmpersands(s: string)
    ensures forall i :: 0 <= i < |EscapeEach(s)| && EscapeEach(s)[i] == '&' ==> EntityAt(EscapeEach(s), i)
  {
    if s != [] {
      var head, tail := EscapeChar(s[0]), EscapeEach(s[1..]);
      EscapeEachAmpersands(s[1..]);
      forall i | 0 <= i < |head + tail| && (head + tail)[i] == '&'
        ensures EntityAt(head + tail, i)
      {
        if i < |head| {
          assert head[i] == '&';
          EntityAtPrefix(head, tail);
        } else {
          EntityAtShift(head, tail, i - |head|);
        }
      }
    }
  }

  /** The escaped preview never holds a bare `&`. */
  lemma EscapeHtmlAmpersands(s: string)
    ensures forall i :: 0 <= i < |EscapeHtml(s)| && EscapeHtml(s)[i] == '&' ==> EntityAt(EscapeHtml(s), i)
  {
    EscapeHtmlIsPerCharacter(s);
    EscapeEachAmpersands(s);
  }

  /** Decodes the three entities back to their characters. */
  function Unescape(r: string): string {
    if |r| >= 5 && r[..5] == "&amp;" then "&" + Unescape(r[5..])
    else if |r| >= 4 && r[..4] == "&lt;" then "<" + Unescape(r[4..])
    else if |r| >= 4 && r[..4] == "&gt;" then ">" + Unescape(r[4..])
    else if r == [] then []
    else [r[0]] + Unescape(r[1..])
  }

  lemma UnescapeStep(c: char, t: string)
    ensures Unescape(EscapeChar(c) + t) == [c] + Unescape(t)
  {
    if c == '&' {
      UnescapeAmp(t);
    } else if c == '<' {
      UnescapeLt(t);
    } else if c == '>' {
      UnescapeGt(t);
    } else {
      UnescapePlain(c, t);
    }
  }

  lemma UnescapeAmp(t: string)
    ensures Unescape("&amp;" + t) == "&" + Unescape(t)
  {
    var r := "&amp;" + t;
    assert r[..5] == "&amp;" && r[5..] == t;
  }

  lemma UnescapeLt(t: string)
    ensures Unescape("&lt;" + t) == "<" + Unescape(t)
  {
    var r := "&lt;" + t;
    assert r[1] == 'l';
    assert |r| >= 5 ==> r[..5] != "&amp;" by {
      if |r| >= 5 { assert r[..5][1] != "&amp;"[1]; }
    }
    assert r[..4] == "&lt;" && r[4..] == t;
  }

  lemma UnescapeGt(t: string)
    ensures Unescape("&gt;" + t) == ">" + Unescape(t)
  {
    var r := "&gt;" + t;
    assert r[1] == 'g';
    assert |r| >= 5 ==> r[..5] != "&amp;" by {
      if |r| >= 5 { assert r[..5][1] != "&amp;"[1]; }
    }
    assert r[..4] != "&lt;" by { assert r[..4][1] != "&lt;"[1]; }
    assert r[..4] == "&gt;" && r[4..] == t;
  }

  lemma UnescapePlain(c: char, t: string)
    requires c != '&'
    ensures Unescape([c] + t) == [c] + Unescape(t)
  {
    var r := [c] + t;
    assert r[0] == c;
    assert |r| >= 5 ==> r[..5] != "&amp;" by {
      if |r| >= 5 { assert r[..5][0] != "&amp;"[0]; }
    }
    assert |r| >= 4 ==> r[..4] != "&lt;" && r[..4] != "&gt;" by {
      if |r| >= 4 { assert r[..4][0] != "&lt;"[0]; }
    }
    assert r[1..] == t;
  }

  /** The original text is recovered from the escaped one. */
  lemma {:induction false} UnescapeEscapeHtml(s: string)
    ensures Unescape(EscapeHtml(s)) == s
  {
    EscapeHtmlIsPerCharacter(s);
    UnescapeEscapeEach(s);
  }

  lemma {:induction false} UnescapeEscapeEach(s: string)
    ensures Unescape(EscapeEach(s)) == s
  {
    if s != [] {
      UnescapeStep(s[0], EscapeEach(s[1..]));
      UnescapeEscapeEach(s[1..]);
    }
  }
}
