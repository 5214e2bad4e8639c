/** The string operations of Python that the audit tool uses. */
module PyText {
  import opened Prelude

  /** str.isspace for one character. */
  predicate IsSpace(c: char) {
    || '\U{0009}' <= c <= '\U{000D}' || '\U{001C}' <= c <= '\U{0020}' || c == '\U{0085}' || c == '\U{00A0}'
    || c == '\U{1680}' || '\U{2000}' <= c <= '\U{200A}' || c == '\U{2028}' || c == '\U{2029}' || c == '\U{202F}'
    || c == '\U{205F}' || c == '\U{3000}'
  }

  function LStrip(s: string): string {
    if s != "" && IsSpace(s[0]) then LStrip(s[1..]) else s
  }

  function RStrip(s: string): string {
    if s != "" && IsSpace(Last(s)) then RStrip(Init(s)) else s
  }

  /** str.strip(). */
  function Strip(s: string): string {
    RStrip(LStrip(s))
  }

  ghost predicate Trimmed(s: string) {
    s != "" ==> !IsSpace(s[0]) && !IsSpace(Last(s))
  }

  lemma {:induction false} LStripMeaning(s: string)
    ensures LStrip(s) != "" ==> !IsSpace(LStrip(s)[0])
  {
    if s != "" && IsSpace(s[0]) {
      LStripMeaning(s[1..]);
    }
  }

  lemma {:induction false} RStripMeaning(s: string)
    ensures RStrip(s) <= s
    ensures RStrip(s) != "" ==> !IsSpace(Last(RStrip(s)))
  {
    if s != "" && IsSpace(Last(s)) {
      RStripMeaning(Init(s));
    }
  }

  /** strip() leaves exactly the trimmed strings alone, and always returns one. */
  lemma StripMeaning(s: string)
    ensures Trimmed(Strip(s))
    ensures Strip(s) == s <==> Trimmed(s)
  {
    LStripMeaning(s);
    RStripMeaning(LStrip(s));
    var l := LStrip(s);
    if RStrip(l) != "" {
      assert RStrip(l)[0] == l[0];
    }
  }

  ghost predicate AllSpaces(s: string) {
    forall i :: 0 <= i < |s| ==> IsSpace(s[i])
  }

  lemma {:induction false} LStripExact(s: string) returns (a: string)
    ensures s == a + LStrip(s) && AllSpaces(a)
  {
    if s != "" && IsSpace(s[0]) {
      var rest := LStripExact(s[1..]);
      a := [s[0]] + rest;
      assert s == [s[0]] + s[1..];
    } else {
      a := "";
    }
  }

  lemma {:induction false} RStripExact(s: string) returns (b: string)
    ensures s == RStrip(s) + b && AllSpaces(b)
  {
    if s != "" && IsSpace(Last(s)) {
      var rest := RStripExact(Init(s));
      b := rest + [Last(s)];
      assert s == Init(s) + [Last(s)];
    } else {
      b := "";
    }
  }

  /** strip() takes away white space at both ends and nothing else. */
  lemma StripExact(s: string) returns (a: string, b: string)
    ensures s == a + Strip(s) + b && AllSpaces(a) && AllSpaces(b) && Trimmed(Strip(s))
  {
    a := LStripExact(s);
    b := RStripExact(LStrip(s));
    StripMeaning(s);
  }

  /** White space in ASCII: the space, the four separators before it, and tab to carriage return. */
  lemma AsciiSpaces(c: char)
    requires c < '\U{0080}'
    ensures IsSpace(c) <==> c == ' ' || '\t' <= c <= '\r' || '\U{001C}' <= c <= '\U{001F}'
  {
  }

  /** The same beyond ASCII. */
  lemma UnicodeSpaces(c: char)
    requires c >= '\U{0080}'
    ensures IsSpace(c) <==> var u := c as int;
            || u == 133 || u == 160 || u == 5760 || 8192 <= u <= 8202 || u == 8232 || u == 8233 || u == 8239
            || u == 8287 || u == 12288
  {
  }

  /** Position of the first occurrence of a character, or the length. */
  function IndexOf(s: string, c: char): (i: nat)
    ensures i <= |s|
    ensures i < |s| ==> s[i] == c
    ensures c !in s[..i]
  {
    if s == "" || s[0] == c then 0
    else
      var i := 1 + IndexOf(s[1..], c);
      assert s[..i] == [s[0]] + s[1..][..i - 1];
      i
  }

  lemma {:induction false} IndexOfAt(a: string, c: char, b: string)
    requires c !in a
    ensures IndexOf(a + [c] + b, c) == |a|
  {
    if a != "" {
      assert (a + [c] + b)[1..] == a[1..] + [c] + b;
      IndexOfAt(a[1..], c, b);
    }
  }
}
