/** Rewriting the page title with the site name: HTML escaping, the title pattern, and String.prototype.replace. */
module Branding {
  import opened Prelude

  /******* escapeHtml *******/

  function EscapeChar(c: char): string {
    match c
    case '&' => "&amp;"
    case '<' => "&lt;"
    case '>' => "&gt;"
    case '"' => "&quot;"
    case '\'' => "&#39;"
    case _ => [c]
  }

  function EscapeHtml(s: string): string {
    if s == "" then "" else EscapeChar(s[0]) + EscapeHtml(s[1..])
  }

  /** What a browser makes of the five entities. */
  function Unescape(s: string): string {
    if s == "" then ""
    else if "&amp;" <= s then "&" + Unescape(s[5..])
    else if "&lt;" <= s then "<" + Unescape(s[4..])
    else if "&gt;" <= s then ">" + Unescape(s[4..])
    else if "&quot;" <= s then "\"" + Unescape(s[6..])
    else if "&#39;" <= s then "'" + Unescape(s[5..])
    else [s[0]] + Unescape(s[1..])
  }

  lemma UnescapeChar(c: char, rest: string)
    ensures Unescape(EscapeChar(c) + rest) == [c] + Unescape(rest)
  {
    var e := EscapeChar(c);
    var s := e + rest;
    assert s[..|e|] == e && s[|e|..] == rest;
    if e == [c] {
      assert s[0] == c;
    } else {
      assert s[1] == e[1] && s[2] == e[2];
    }
  }

  /** Decoding undoes escaping, for every site name. */
  lemma {:induction false} UnescapeEscape(s: string)
    ensures Unescape(EscapeHtml(s)) == s
  {
    if s != "" {
      UnescapeChar(s[0], EscapeHtml(s[1..]));
      UnescapeEscape(s[1..]);
    }
  }

  /** Escaped text cannot open or close a tag or an attribute. */
  lemma {:induction false} EscapedIsInert(s: string)
    ensures forall i :: 0 <= i < |EscapeHtml(s)| ==>
              EscapeHtml(s)[i] != '<' && EscapeHtml(s)[i] != '>' && EscapeHtml(s)[i] != '"' && EscapeHtml(s)[i] != '\''
  {
    if s != "" {
      EscapedIsInert(s[1..]);
    }
  }

  /******* The title pattern *******/

  function Lower(c: char): char {
    if 'A' <= c <= 'Z' then (c as int + 32) as char else c
  }

  const OPEN := "<title>"
  const CLOSE := "</title>"

  /** The lower-case text stands at position `i`, in any case. */
  predicate StandsAt(s: string, i: nat, text: string) {
    i + |text| <= |s| && forall k :: 0 <= k < |text| ==> Lower(s[i + k]) == text[k]
  }

  function NextTag(s: string, i: nat): (k: nat)
    requires i <= |s|
    ensures i <= k <= |s|
    decreases |s| - i
  {
    if i == |s| || s[i] == '<' then i else NextTag(s, i + 1)
  }

  /** Where a title that starts at `i` ends, if there is one. */
  function TitleEnd(s: string, i: nat): Option<nat> {
    if !StandsAt(s, i, OPEN) then None
    else
      var k := NextTag(s, i + |OPEN|);
      if StandsAt(s, k, CLOSE) then Some(k + |CLOSE|) else None
  }

  /** The first match at or after `i`. */
  function FindFrom(s: string, i: nat): Option<(nat, nat)>
    requires i <= |s|
    decreases |s| - i
  {
    var e := TitleEnd(s, i);
    if e.Some? then Some((i, e.value)) else if i == |s| then None else FindFrom(s, i + 1)
  }

  function FindTitle(s: string): Option<(nat, nat)> { FindFrom(s, 0) }

  lemma {:induction false} FindMeaning(s: string, i: nat)
    requires i <= |s|
    ensures FindFrom(s, i).None? <==> forall k :: i <= k <= |s| ==> TitleEnd(s, k).None?
    ensures FindFrom(s, i).Some? ==>
              var (a, b) := FindFrom(s, i).value;
              i <= a < b <= |s| && TitleEnd(s, a) == Some(b) && forall k :: i <= k < a ==> TitleEnd(s, k).None?
    decreases |s| - i
  {
    if TitleEnd(s, i).None? && i < |s| {
      FindMeaning(s, i + 1);
    }
  }

  lemma {:induction false} FoundAt(s: string, i: nat, a: nat, b: nat)
    requires i <= a <= |s| && TitleEnd(s, a) == Some(b) && forall k :: i <= k < a ==> TitleEnd(s, k).None?
    ensures FindFrom(s, i) == Some((a, b))
    decreases a - i
  {
    if i < a {
      FoundAt(s, i + 1, a, b);
    }
  }

  /******* String.prototype.replace *******/

  /** GetSubstitution of ECMAScript for a pattern without capture groups. */
  function Expand(t: string, matched: string, before: string, after: string): string {
    if t == "" then ""
    else if |t| >= 2 && t[0] == '$' && t[1] == '$' then "$" + Expand(t[2..], matched, before, after)
    else if |t| >= 2 && t[0] == '$' && t[1] == '&' then matched + Expand(t[2..], matched, before, after)
    else if |t| >= 2 && t[0] == '$' && t[1] == '`' then before + Expand(t[2..], matched, before, after)
    else if |t| >= 2 && t[0] == '$' && t[1] == '\'' then after + Expand(t[2..], matched, before, after)
    else [t[0]] + Expand(t[1..], matched, before, after)
  }

  function Branded(name: string): string {
    "<title>" + EscapeHtml(name) + " - AI API Gateway</title>"
  }

  /** html.replace(titlePattern, replacement) */
  function ReplaceTitle(html: string, replacement: string): string {
    match FindTitle(html)
    case None => html
    case Some((i, j)) =>
      FindMeaning(html, 0);
      html[..i] + Expand(replacement, html[i..j], html[..i], html[j..]) + html[j..]
  }

  /** The title step of injectBranding, for the trimmed site name. */
  function InjectTitle(html: string, name: string): string {
    if name == "" then html else ReplaceTitle(html, Branded(name))
  }

  /******* When the replacement text is taken literally *******/

  predicate Special(c: char) { c == '$' || c == '&' || c == '`' || c == '\'' }

  /** No dollar sign is followed by a character of the given kind. */
  ghost predicate NoDollarBefore(bad: char -> bool, t: string) {
    forall i :: 0 <= i < |t| - 1 && t[i] == '$' ==> !bad(t[i + 1])
  }

  lemma NoDollarCons(bad: char -> bool, c: char, t: string)
    ensures NoDollarBefore(bad, [c] + t) <==> NoDollarBefore(bad, t) && !(c == '$' && t != "" && bad(t[0]))
  {
    var s := [c] + t;
    assert forall i :: 0 <= i < |t| ==> s[i + 1] == t[i];
    if NoDollarBefore(bad, s) {
      forall i | 0 <= i < |t| - 1 && t[i] == '$' ensures !bad(t[i + 1]) {
        assert s[i + 1] == t[i] && s[i + 2] == t[i + 1];
      }
      assert c == '$' && t != "" ==> s[0] == '$' && !bad(s[0 + 1]);
    } else {
      var i :| 0 <= i < |s| - 1 && s[i] == '$' && bad(s[i + 1]);
      assert i > 0 ==> t[i - 1] == '$' && bad(t[i - 1 + 1]);
    }
  }

  /** No dollar sign of the replacement text makes a replacement pattern. */
  ghost predicate PatternFree(t: string) { NoDollarBefore(Special, t) }

  /** Escaping turns five characters into an ampersand. */
  predicate SpecialOnceEscaped(c: char) { Special(EscapeChar(c)[0]) }

  /** The same, for a site name before escaping. */
  ghost predicate Plain(name: string) { NoDollarBefore(SpecialOnceEscaped, name) }

  lemma {:induction false} ExpandLiteral(t: string, matched: string, before: string, after: string)
    requires PatternFree(t)
    ensures Expand(t, matched, before, after) == t
  {
    if t != "" {
      assert |t| >= 2 && t[0] == '$' ==> !Special(t[0 + 1]);
      assert forall i :: 0 <= i < |t[1..]| ==> t[1..][i] == t[i + 1];
      ExpandLiteral(t[1..], matched, before, after);
    }
  }

  lemma PatternFreeCons(c: char, t: string)
    ensures PatternFree([c] + t) <==> PatternFree(t) && !(c == '$' && t != "" && Special(t[0]))
  {
    NoDollarCons(Special, c, t);
  }

  lemma {:induction false} PatternFreeSkip(p: string, t: string)
    requires '$' !in p
    ensures PatternFree(p + t) <==> PatternFree(t)
  {
    if p == "" {
      assert p + t == t;
    } else {
      PatternFreeSkip(p[1..], t);
      PatternFreeCons(p[0], p[1..] + t);
      assert p + t == [p[0]] + (p[1..] + t);
      assert p[0] in p;
    }
  }

  lemma PlainCons(c: char, rest: string)
    ensures Plain([c] + rest) <==> Plain(rest) && !(c == '$' && rest != "" && SpecialOnceEscaped(rest[0]))
  {
    NoDollarCons(SpecialOnceEscaped, c, rest);
  }

  lemma EscapedCharPatterns(c: char, t: string)
    ensures PatternFree(EscapeChar(c) + t) <==> PatternFree(t) && !(c == '$' && t != "" && Special(t[0]))
  {
    if c == '$' {
      PatternFreeCons(c, t);
    } else {
      PatternFreeSkip(EscapeChar(c), t);
    }
  }

  lemma EscapedHead(name: string, tail: string)
    requires name != ""
    ensures var t := EscapeHtml(name) + tail; t != "" && t[0] == EscapeChar(name[0])[0]
  {
  }

  lemma {:induction false} EscapedPatterns(name: string, tail: string)
    requires tail != "" && !Special(tail[0])
    ensures PatternFree(EscapeHtml(name) + tail) <==> Plain(name) && PatternFree(tail)
  {
    if name == "" {
      assert EscapeHtml(name) + tail == tail;
    } else {
      var c, rest := name[0], name[1..];
      var t := EscapeHtml(rest) + tail;
      EscapedPatterns(rest, tail);
      PlainCons(c, rest);
      assert name == [c] + rest;
      assert EscapeHtml(name) + tail == EscapeChar(c) + t;
      EscapedCharPatterns(c, t);
      if rest == "" {
        assert t == tail;
      } else {
        EscapedHead(rest, tail);
      }
    }
  }

  /** The replacement text holds a replacement pattern exactly when the site name is not plain. */
  lemma BrandedPatterns(name: string)
    ensures PatternFree(Branded(name)) <==> Plain(name)
  {
    var tail := " - AI API Gateway</title>";
    assert PatternFree(tail);
    EscapedPatterns(name, tail);
    assert '$' !in OPEN;
    PatternFreeSkip(OPEN, EscapeHtml(name) + tail);
    assert Branded(name) == OPEN + (EscapeHtml(name) + tail);
  }

  /** How often Expand inserts the match, and how much it shortens otherwise, on a page that is just an empty title. */
  ghost function Inserts(t: string): nat {
    if |t| < 2 then 0
    else if t[0] == '$' && Special(t[1]) then Inserts(t[2..]) + (if t[1] == '&' then 1 else 0)
    else Inserts(t[1..])
  }

  ghost function Shortens(t: string): nat {
    if |t| < 2 then 0
    else if t[0] == '$' && Special(t[1]) then
      Shortens(t[2..]) + (if t[1] == '&' then 0 else if t[1] == '$' then 1 else 2)
    else Shortens(t[1..])
  }

  ghost function CountTags(t: string): nat {
    if t == "" then 0 else CountTags(t[1..]) + if t[0] == '<' then 1 else 0
  }

  lemma {:induction false} CountConcat(a: string, b: string)
    ensures CountTags(a + b) == CountTags(a) + CountTags(b)
  {
    if a == "" {
      assert a + b == b;
    } else {
      CountConcat(a[1..], b);
      assert (a + b)[1..] == a[1..] + b;
    }
  }

  const EMPTY_TITLE := OPEN + CLOSE

  lemma EmptyTitleTags()
    ensures CountTags(EMPTY_TITLE) == 2
  {
    CountConcat(OPEN, CLOSE);
    OneTag(OPEN);
    OneTag(CLOSE);
  }

  lemma OneTag(s: string)
    requires s != "" && s[0] == '<' && '<' !in s[1..]
    ensures CountTags(s) == 1
  {
    NoTags(s[1..]);
  }

  lemma {:induction false} NoTags(s: string)
    requires '<' !in s
    ensures CountTags(s) == 0
  {
    if s != "" {
      NoTags(s[1..]);
    }
  }

  lemma PatternCounts(t: string, m: string)
    requires |t| >= 2 && t[0] == '$' && Special(t[1])
    ensures CountTags(Expand(t, m, "", "")) ==
            CountTags(Expand(t[2..], m, "", "")) + if t[1] == '&' then CountTags(m) else 0
    ensures CountTags(t) == CountTags(t[2..])
  {
    var e := Expand(t[2..], m, "", "");
    CountConcat(m, e);
    CountConcat("$", e);
    assert "" + e == e;
    NoTags("$");
    assert t == t[..2] + t[2..];
    CountConcat(t[..2], t[2..]);
    NoTags(t[..2]);
  }

  lemma {:induction false} ExpandCounts(t: string, m: string)
    requires CountTags(m) == 2
    ensures CountTags(Expand(t, m, "", "")) == CountTags(t) + 2 * Inserts(t)
  {
    if |t| >= 2 && t[0] == '$' && Special(t[1]) {
      ExpandCounts(t[2..], m);
      PatternCounts(t, m);
    } else if t != "" {
      var e := Expand(t[1..], m, "", "");
      ExpandCounts(t[1..], m);
      assert ([t[0]] + e)[1..] == e;
    }
  }

  lemma {:induction false} ExpandShortens(t: string, m: string)
    requires Inserts(t) == 0
    ensures |Expand(t, m, "", "")| == |t| - Shortens(t)
  {
    if |t| >= 2 && t[0] == '$' && Special(t[1]) {
      ExpandShortens(t[2..], m);
    } else if t != "" {
      ExpandShortens(t[1..], m);
    }
  }

  lemma {:induction false} QuietIsPatternFree(t: string)
    requires Inserts(t) == 0 && Shortens(t) == 0
    ensures PatternFree(t)
  {
    if |t| >= 2 {
      QuietIsPatternFree(t[1..]);
      PatternFreeCons(t[0], t[1..]);
      assert t == [t[0]] + t[1..];
    }
  }

  /** The page with its first title replaced by exactly the given text. */
  ghost function Literal(html: string, text: string): string {
    match FindTitle(html)
    case None => html
    case Some((i, j)) => FindMeaning(html, 0); html[..i] + text + html[j..]
  }

  lemma EmptyTitleFound()
    ensures FindTitle(EMPTY_TITLE) == Some((0, 15))
  {
    var s := EMPTY_TITLE;
    assert StandsAt(s, 0, OPEN);
    assert s[7] == '<' && NextTag(s, 7) == 7;
    assert StandsAt(s, 7, CLOSE);
  }

  lemma ReplacedLiterally(html: string, text: string)
    requires PatternFree(text)
    ensures ReplaceTitle(html, text) == Literal(html, text)
  {
    if FindTitle(html).Some? {
      var (i, j) := FindTitle(html).value;
      FindMeaning(html, 0);
      ExpandLiteral(text, html[i..j], html[..i], html[j..]);
    }
  }

  /** On a page that is nothing but a title, the rewrite is the expanded replacement. */
  lemma OnBareTitle(s: string, text: string)
    requires FindTitle(s) == Some((0, |s|))
    ensures ReplaceTitle(s, text) == Expand(text, s, "", "") && Literal(s, text) == text
  {
    assert s[..0] == "" && s[0..|s|] == s && s[|s|..] == "";
  }

  lemma PatternChangesText(t: string, m: string)
    requires CountTags(m) == 2 && !PatternFree(t)
    ensures Expand(t, m, "", "") != t
  {
    ExpandCounts(t, m);
    if Inserts(t) == 0 {
      ExpandShortens(t, m);
      if Shortens(t) == 0 {
        QuietIsPatternFree(t);
      }
    }
  }

  /**
   The rewrite inserts exactly the escaped name on every page if and only if the name is plain: no dollar sign stands
   right before another one, a back quote, or one of the five escaped characters.
   */
  lemma LiteralIffPlain(name: string)
    requires name != ""
    ensures Plain(name) <==> forall html: string :: InjectTitle(html, name) == Literal(html, Branded(name))
  {
    var text := Branded(name);
    BrandedPatterns(name);
    if Plain(name) {
      forall html: string ensures InjectTitle(html, name) == Literal(html, text) {
        ReplacedLiterally(html, text);
      }
    } else {
      EmptyTitleFound();
      EmptyTitleTags();
      OnBareTitle(EMPTY_TITLE, text);
      PatternChangesText(text, EMPTY_TITLE);
    }
  }

  /******* Rewriting again *******/

  lemma {:induction false} NextTagAgrees(s: string, t: string, k: nat, i: nat)
    requires k <= i < |s| && i < |t| && s[i] == '<' && t[i] == '<'
    requires forall x :: 0 <= x < i ==> s[x] == t[x]
    ensures NextTag(s, k) == NextTag(t, k) <= i
    decreases i - k
  {
    if k < i && s[k] != '<' {
      NextTagAgrees(s, t, k + 1, i);
    }
  }

  /** A text with its only `<` in front cannot stand across a `<`. */
  lemma CannotCross(s: string, k: nat, i: nat, text: string)
    requires k < i < k + |text| && i < |s| && s[i] == '<' && text != "" && '<' !in text[1..]
    ensures !StandsAt(s, k, text)
  {
    var o := i - k;
    assert text[o] == text[1..][o - 1];
    assert text[o] in text[1..];
    assert Lower(s[k + o]) == '<';
  }

  lemma StandsAgrees(s: string, t: string, k: nat, text: string, i: nat)
    requires k + |text| <= i <= |s| && i <= |t| && forall x :: 0 <= x < i ==> s[x] == t[x]
    ensures StandsAt(s, k, text) <==> StandsAt(t, k, text)
  {
  }

  /** Two pages that agree up to a `<` which opens a title have the same titles before it. */
  lemma SameTitlesBefore(s: string, t: string, k: nat, i: nat)
    requires k < i && StandsAt(s, i, OPEN) && StandsAt(t, i, OPEN) && s[i] == '<' && t[i] == '<'
    requires forall x :: 0 <= x < i ==> s[x] == t[x]
    ensures TitleEnd(s, k).None? ==> TitleEnd(t, k).None?
  {
    if k + |OPEN| <= i {
      StandsAgrees(s, t, k, OPEN, i);
      NextTagAgrees(s, t, k + |OPEN|, i);
      var e := NextTag(t, k + |OPEN|);
      if e + |CLOSE| <= i {
        StandsAgrees(s, t, e, CLOSE, i);
      } else if e < i {
        CannotCross(t, e, i, CLOSE);
      } else {
        assert Lower(t[i + 1]) == OPEN[1] == 't' && CLOSE[1] == '/';
      }
    } else {
      CannotCross(t, k, i, OPEN);
    }
  }

  lemma {:induction false} NextTagAt(s: string, k: nat, e: nat)
    requires k <= e < |s| && s[e] == '<' && forall x :: k <= x < e ==> s[x] != '<'
    ensures NextTag(s, k) == e
    decreases e - k
  {
    if k < e {
      NextTagAt(s, k + 1, e);
    }
  }

  lemma StandsInside(a: string, text: string, b: string)
    requires forall k :: 0 <= k < |text| ==> Lower(text[k]) == text[k]
    ensures StandsAt(a + text + b, |a|, text)
  {
    var s := a + text + b;
    forall k | 0 <= k < |text| ensures Lower(s[|a| + k]) == text[k] {
      assert s[|a| + k] == text[k];
    }
  }

  lemma TitleShape(pre: string, text: string, post: string)
    requires '<' !in text
    ensures var s := pre + OPEN + text + CLOSE + post;
            TitleEnd(s, |pre|) == Some(|pre| + |OPEN| + |text| + |CLOSE|) && StandsAt(s, |pre|, OPEN)
  {
    var s := pre + OPEN + text + CLOSE + post;
    assert s == pre + OPEN + (text + CLOSE + post);
    StandsInside(pre, OPEN, text + CLOSE + post);
    assert s == (pre + OPEN + text) + CLOSE + post;
    StandsInside(pre + OPEN + text, CLOSE, post);
    TagAfter(pre + OPEN, text, CLOSE + post);
    assert s == pre + OPEN + text + (CLOSE + post);
  }

  lemma TagAfter(a: string, text: string, b: string)
    requires '<' !in text && b != "" && b[0] == '<'
    ensures NextTag(a + text + b, |a|) == |a| + |text|
  {
    var s := a + text + b;
    forall x | |a| <= x < |a| + |text| ensures s[x] != '<' {
      assert s[x] == text[x - |a|];
    }
    assert s[|a| + |text|] == b[0];
    NextTagAt(s, |a|, |a| + |text|);
  }

  /** The branded title is itself found as a title, from its first to its last character. */
  lemma BrandedIsTitle(pre: string, name: string, post: string)
    ensures TitleEnd(pre + Branded(name) + post, |pre|) == Some(|pre| + |Branded(name)|)
    ensures StandsAt(pre + Branded(name) + post, |pre|, OPEN)
  {
    var text := EscapeHtml(name) + " - AI API Gateway";
    EscapedIsInert(name);
    assert Branded(name) == OPEN + text + CLOSE;
    assert pre + Branded(name) + post == pre + OPEN + text + CLOSE + post;
    TitleShape(pre, text, post);
  }

  lemma OpensWithTag(s: string, i: nat)
    requires StandsAt(s, i, OPEN)
    ensures s[i] == '<'
  {
    assert Lower(s[i + 0]) == OPEN[0];
  }

  /** Replacing the first title by another leaves no title before it. */
  lemma FirstStays(html: string, out: string, i: nat, b: nat)
    requires i <= |html| && i <= |out|
    requires TitleEnd(html, i).Some? && (forall k :: 0 <= k < i ==> TitleEnd(html, k).None?)
    requires TitleEnd(out, i) == Some(b) && forall x :: 0 <= x < i ==> html[x] == out[x]
    ensures FindTitle(out) == Some((i, b))
  {
    OpensWithTag(html, i);
    OpensWithTag(out, i);
    forall k | 0 <= k < i ensures TitleEnd(out, k).None? {
      SameTitlesBefore(html, out, k, i);
    }
    FoundAt(out, 0, i, b);
  }

  /** A replacement that is itself a title becomes the first title of the page. */
  lemma FoundAgain(html: string, text: string, i: nat, j: nat)
    requires FindTitle(html) == Some((i, j)) && i < j <= |html|
    requires TitleEnd(html[..i] + text + html[j..], i) == Some(i + |text|)
    ensures FindTitle(html[..i] + text + html[j..]) == Some((i, i + |text|))
  {
    var out := html[..i] + text + html[j..];
    FindMeaning(html, 0);
    assert out[..i] == html[..i];
    forall x | 0 <= x < i ensures html[x] == out[x] {
      assert html[..i][x] == out[..i][x];
    }
    FirstStays(html, out, i, i + |text|);
  }

  /** Wherever the text stands, it is a whole title. */
  ghost predicate IsTitleText(text: string) {
    forall pre: string, post: string :: TitleEnd(pre + text + post, |pre|) == Some(|pre| + |text|)
  }

  lemma BrandedIsTitleText(name: string)
    ensures IsTitleText(Branded(name))
  {
    forall pre: string, post: string
      ensures TitleEnd(pre + Branded(name) + post, |pre|) == Some(|pre| + |Branded(name)|)
    {
      BrandedIsTitle(pre, name, post);
    }
  }

  /** What replacing the first title by a title does, and that doing it again does nothing. */
  ghost predicate RewritesOnce(html: string, text: string) {
    var out := ReplaceTitle(html, text);
    && ReplaceTitle(out, text) == out
    && match FindTitle(html)
       case None => out == html
       case Some((i, j)) =>
         i < j <= |html| && out == html[..i] + text + html[j..] && FindTitle(out) == Some((i, i + |text|))
  }

  lemma LiteralAt(html: string, text: string, i: nat, j: nat)
    requires PatternFree(text) && FindTitle(html) == Some((i, j)) && i < j <= |html|
    ensures ReplaceTitle(html, text) == html[..i] + text + html[j..]
  {
    ExpandLiteral(text, html[i..j], html[..i], html[j..]);
  }

  lemma ReplaceTwiceAt(html: string, text: string, i: nat, j: nat)
    requires PatternFree(text) && FindTitle(html) == Some((i, j)) && i < j <= |html| && text != ""
    requires TitleEnd(html[..i] + text + html[j..], i) == Some(i + |text|)
    ensures RewritesOnce(html, text)
  {
    var out := html[..i] + text + html[j..];
    LiteralAt(html, text, i, j);
    FoundAgain(html, text, i, j);
    LiteralAt(out, text, i, i + |text|);
    assert out[..i] == html[..i] && out[i + |text|..] == html[j..];
  }

  lemma ReplaceTwice(html: string, text: string)
    requires PatternFree(text) && IsTitleText(text) && text != ""
    ensures RewritesOnce(html, text)
  {
    FindMeaning(html, 0);
    if FindTitle(html).Some? {
      var (i, j) := FindTitle(html).value;
      assert TitleEnd(html[..i] + text + html[j..], |html[..i]|) == Some(i + |text|);
      ReplaceTwiceAt(html, text, i, j);
    }
  }

  /**
   For a plain name the rewrite keeps everything outside the first title, makes the branded title the first one, and
   does nothing the second time.
   */
  lemma RewriteIsIdempotent(html: string, name: string)
    requires name != "" && Plain(name)
    ensures RewritesOnce(html, Branded(name)) && InjectTitle(html, name) == ReplaceTitle(html, Branded(name))
  {
    BrandedPatterns(name);
    BrandedIsTitleText(name);
    ReplaceTwice(html, Branded(name));
  }

  /******* In plain words *******/

  /** The text is the given word, letter by letter, in lower or upper case. */
  ghost predicate Reads(text: string, lower: string, upper: string)
    requires |lower| == |upper|
  {
    |text| == |lower| && forall k :: 0 <= k < |text| ==> text[k] == lower[k] || text[k] == upper[k]
  }

  /** A title: an opening tag, text without a tag, and a closing tag. */
  ghost predicate IsTitle(t: string) {
    && |t| >= 15 && Reads(t[..7], "<title>", "<TITLE>") && Reads(t[|t| - 8..], "</title>", "</TITLE>")
    && '<' !in t[7..|t| - 8]
  }

  lemma LowerMeaning(c: char, lower: char, upper: char)
    requires ('a' <= lower <= 'z' && upper as int == lower as int - 32) || (lower == upper && lower in "<>/")
    ensures Lower(c) == lower <==> c == lower || c == upper
  {
  }

  lemma OpenStands(s: string, i: nat)
    requires i + 7 <= |s|
    ensures StandsAt(s, i, OPEN) <==> Reads(s[i..i + 7], "<title>", "<TITLE>")
  {
    var t := s[i..i + 7];
    forall k | 0 <= k < 7 ensures Lower(s[i + k]) == OPEN[k] <==> t[k] == "<title>"[k] || t[k] == "<TITLE>"[k] {
      LowerMeaning(s[i + k], "<title>"[k], "<TITLE>"[k]);
    }
  }

  lemma CloseStands(s: string, i: nat)
    requires i + 8 <= |s|
    ensures StandsAt(s, i, CLOSE) <==> Reads(s[i..i + 8], "</title>", "</TITLE>")
  {
    var t := s[i..i + 8];
    forall k | 0 <= k < 8 ensures Lower(s[i + k]) == CLOSE[k] <==> t[k] == "</title>"[k] || t[k] == "</TITLE>"[k] {
      LowerMeaning(s[i + k], "</title>"[k], "</TITLE>"[k]);
    }
  }

  lemma {:induction false} NextTagMeaning(s: string, i: nat)
    requires i <= |s|
    ensures '<' !in s[i..NextTag(s, i)] && (NextTag(s, i) < |s| ==> s[NextTag(s, i)] == '<')
    decreases |s| - i
  {
    if i < |s| && s[i] != '<' {
      NextTagMeaning(s, i + 1);
      assert s[i..NextTag(s, i)] == [s[i]] + s[i + 1..NextTag(s, i)];
    }
  }

  /** A match of the pattern is exactly a title. */
  lemma TitleMeaning(s: string, i: nat, j: nat)
    requires i <= j <= |s|
    ensures TitleEnd(s, i) == Some(j) <==> IsTitle(s[i..j])
  {
    var t := s[i..j];
    if i + 7 <= |s| {
      OpenStands(s, i);
      NextTagMeaning(s, i + 7);
    }
    if TitleEnd(s, i) == Some(j) {
      var k := NextTag(s, i + 7);
      CloseStands(s, k);
      assert t[..7] == s[i..i + 7] && t[|t| - 8..] == s[k..k + 8] && t[7..|t| - 8] == s[i + 7..k];
    }
    if IsTitle(t) {
      var k := j - 8;
      assert t[..7] == s[i..i + 7] && t[|t| - 8..] == s[k..k + 8] && t[7..|t| - 8] == s[i + 7..k];
      CloseStands(s, k);
      assert s[k] == t[|t| - 8..][0] == '<';
      TagAt(s, i + 7, k);
    }
  }

  lemma {:induction false} TagAt(s: string, i: nat, k: nat)
    requires i <= k < |s| && '<' !in s[i..k] && s[k] == '<'
    ensures NextTag(s, i) == k
    decreases k - i
  {
    if i < k {
      assert s[i] == s[i..k][0] && s[i + 1..k] == s[i..k][1..];
      TagAt(s, i + 1, k);
    }
  }

  /** What the replacement patterns stand for; every other character stands for itself. */
  lemma ExpandMeaning(t: string, c: char, matched: string, before: string, after: string)
    ensures Expand("", matched, before, after) == ""
    ensures Expand("$$" + t, matched, before, after) == "$" + Expand(t, matched, before, after)
    ensures Expand("$&" + t, matched, before, after) == matched + Expand(t, matched, before, after)
    ensures Expand("$`" + t, matched, before, after) == before + Expand(t, matched, before, after)
    ensures Expand("$'" + t, matched, before, after) == after + Expand(t, matched, before, after)
    ensures c != '$' ==> Expand([c] + t, matched, before, after) == [c] + Expand(t, matched, before, after)
  {
    assert ("$$" + t)[2..] == t && ("$&" + t)[2..] == t && ("$`" + t)[2..] == t && ("$'" + t)[2..] == t;
    assert ([c] + t)[1..] == t;
  }

  /** Each character is escaped on its own, and only the five of them. */
  lemma EscapeMeaning(c: char, rest: string)
    ensures EscapeHtml([c] + rest) ==
            (if c == '&' then "&amp;" else if c == '<' then "&lt;" else if c == '>' then "&gt;"
             else if c == '"' then "&quot;" else if c == '\'' then "&#39;" else [c]) + EscapeHtml(rest)
  {
    assert ([c] + rest)[1..] == rest;
  }

  /** Without a title, or without a name, nothing changes. */
  lemma InjectNothing(html: string, name: string)
    requires name == "" || forall a, b :: 0 <= a <= b <= |html| ==> !IsTitle(html[a..b])
    ensures InjectTitle(html, name) == html
  {
    if name != "" {
      NoTitle(html);
    }
  }

  /** For a plain name the first title becomes the escaped name with its suffix, and the rest of the page stays. */
  lemma InjectMeaning(html: string, name: string, i: nat, j: nat)
    requires name != "" && Plain(name) && i <= j <= |html| && IsTitle(html[i..j])
    requires forall a, b :: 0 <= a < i && a <= b <= |html| ==> !IsTitle(html[a..b])
    ensures InjectTitle(html, name) ==
            html[..i] + ("<title>" + EscapeHtml(name) + " - AI API Gateway</title>") + html[j..]
  {
    FirstTitle(html, i, j);
    BrandedPatterns(name);
    ExpandLiteral(Branded(name), html[i..j], html[..i], html[j..]);
  }

  lemma NoTitle(html: string)
    requires forall a, b :: 0 <= a <= b <= |html| ==> !IsTitle(html[a..b])
    ensures FindTitle(html).None?
  {
    FindMeaning(html, 0);
    if FindTitle(html).Some? {
      var (a, b) := FindTitle(html).value;
      TitleMeaning(html, a, b);
    }
  }

  lemma FirstTitle(html: string, i: nat, j: nat)
    requires i <= j <= |html| && IsTitle(html[i..j])
    requires forall a, b :: 0 <= a < i && a <= b <= |html| ==> !IsTitle(html[a..b])
    ensures FindTitle(html) == Some((i, j))
  {
    TitleMeaning(html, i, j);
    forall k | 0 <= k < i ensures TitleEnd(html, k).None? {
      if TitleEnd(html, k).Some? {
        TitleEndInside(html, k);
        TitleMeaning(html, k, TitleEnd(html, k).value);
      }
    }
    FoundAt(html, 0, i, j);
  }

  lemma TitleEndInside(s: string, i: nat)
    requires TitleEnd(s, i).Some?
    ensures i <= TitleEnd(s, i).value <= |s|
  {
  }
}
