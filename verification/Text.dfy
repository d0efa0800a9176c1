/** The string operations the gateway borrows from its language's library. */
module Text {

  /** Unicode white space, as the language's `unicode.IsSpace` defines it. */
  predicate IsSpace(c: char) {
    || '\t' <= c <= '\r' || c == ' ' || c == '\U{0085}' || c == '\U{00A0}'
    || c == '\U{1680}' || '\U{2000}' <= c <= '\U{200A}' || c == '\U{2028}' || c == '\U{2029}'
    || c == '\U{202F}' || c == '\U{205F}' || c == '\U{3000}'
  }

  function TrimLeft(s: string): string {
    if s != [] && IsSpace(s[0]) then TrimLeft(s[1..]) else s
  }

  function TrimRight(s: string): string {
    if s != [] && IsSpace(s[|s| - 1]) then TrimRight(s[..|s| - 1]) else s
  }

  function TrimSpace(s: string): string {
    TrimRight(TrimLeft(s))
  }

  /** Text with no space at either end is left alone. */
  lemma {:induction false} TrimNothing(s: string)
    requires s != [] ==> !IsSpace(s[0]) && !IsSpace(s[|s| - 1])
    ensures TrimSpace(s) == s
  {
  }

  /** The position of the first `ch`, or the length of the text. */
  function IndexOf(s: string, ch: char): (r: nat)
    ensures r <= |s|
  {
    if s == "" || s[0] == ch then 0 else 1 + IndexOf(s[1..], ch)
  }

  /** Text that misses the character, followed by it, puts it right after. */
  lemma {:induction false} IndexAfter(before: string, ch: char, after: string)
    requires ch !in before
    ensures IndexOf(before + [ch] + after, ch) == |before|
  {
    if before != "" {
      assert (before + [ch] + after)[1..] == before[1..] + [ch] + after;
      IndexAfter(before[1..], ch, after);
    }
  }

  predicate AllSpace(s: string) {
    forall k :: 0 <= k < |s| ==> IsSpace(s[k])
  }

  lemma {:induction false} TrimLeftAfter(a: string, s: string)
    requires AllSpace(a)
    ensures TrimLeft(a + s) == TrimLeft(s)
  {
    if a == "" {
      assert a + s == s;
    } else {
      assert (a + s)[1..] == a[1..] + s;
      TrimLeftAfter(a[1..], s);
    }
  }

  lemma {:induction false} TrimRightBefore(s: string, b: string)
    requires AllSpace(b)
    ensures TrimRight(s + b) == TrimRight(s)
    decreases |b|
  {
    if b == "" {
      assert s + b == s;
    } else {
      assert (s + b)[..|s + b| - 1] == s + b[..|b| - 1];
      TrimRightBefore(s, b[..|b| - 1]);
    }
  }

  lemma {:induction false} TrimLeftKeepsTail(s: string, b: string)
    requires AllSpace(b)
    ensures TrimLeft(s + b) == if TrimLeft(s) == "" then "" else TrimLeft(s) + b
  {
    if s == "" {
      assert s + b == b + "";
      TrimLeftAfter(b, "");
    } else if IsSpace(s[0]) {
      assert (s + b)[1..] == s[1..] + b;
      TrimLeftKeepsTail(s[1..], b);
    }
  }

  /** White space around a text makes no difference to what is left of it. */
  lemma {:induction false} TrimSurrounded(a: string, s: string, b: string)
    requires AllSpace(a) && AllSpace(b)
    ensures TrimSpace(a + s + b) == TrimSpace(s)
  {
    assert a + s + b == a + (s + b);
    TrimLeftAfter(a, s + b);
    TrimLeftKeepsTail(s, b);
    TrimRightBefore(TrimLeft(s), b);
  }
}
