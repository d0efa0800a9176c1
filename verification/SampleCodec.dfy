/**
 One codec that keeps what the gateway asks of SHA-256 and JSON, so that what is proved under
 `CodecOk` is proved of something.  A value becomes a list of integers, each part preceded by
 its size, and the list becomes text in unary.
 */
module SampleCodec {
  import opened Results
  import opened Keys

  // ------------------------------------------------------- integers as text

  function Unary(n: nat): string {
    if n == 0 then ['0'] else ['1'] + Unary(n - 1)
  }

  function Natural(x: int): nat {
    if 0 <= x then 2 * x else -2 * x - 1
  }

  function Text(xs: seq<int>): string {
    if xs == [] then [] else Unary(Natural(xs[0])) + Text(xs[1..])
  }

  lemma {:induction false} UnaryReads(m: nat, x: string, n: nat, y: string)
    requires Unary(m) + x == Unary(n) + y
    ensures m == n && x == y
  {
    var a, b := Unary(m) + x, Unary(n) + y;
    assert a[0] == (if m == 0 then '0' else '1') && b[0] == (if n == 0 then '0' else '1');
    assert a[1..] == if m == 0 then x else Unary(m - 1) + x;
    assert b[1..] == if n == 0 then y else Unary(n - 1) + y;
    if m > 0 {
      UnaryReads(m - 1, x, n - 1, y);
    }
  }

  lemma {:induction false} EmptyText(xs: seq<int>)
    ensures Text(xs) == [] <==> xs == []
  {
    assert xs != [] ==> Unary(Natural(xs[0])) != [];
  }

  lemma {:induction false} TextReads(xs: seq<int>, ys: seq<int>)
    requires Text(xs) == Text(ys)
    ensures xs == ys
  {
    EmptyText(xs);
    EmptyText(ys);
    if xs != [] && ys != [] {
      UnaryReads(Natural(xs[0]), Text(xs[1..]), Natural(ys[0]), Text(ys[1..]));
      TextReads(xs[1..], ys[1..]);
      assert xs == [xs[0]] + xs[1..] && ys == [ys[0]] + ys[1..];
    }
  }

  lemma {:induction false} UnaryIsPlain(n: nat)
    ensures NUL !in Unary(n)
  {
    if n > 0 {
      UnaryIsPlain(n - 1);
    }
  }

  lemma {:induction false} TextIsPlain(xs: seq<int>)
    ensures NUL !in Text(xs)
  {
    if xs != [] {
      UnaryIsPlain(Natural(xs[0]));
      TextIsPlain(xs[1..]);
    }
  }

  // ------------------------------------------------------ values as integers

  function Codes(s: string): seq<int> {
    seq(|s|, i requires 0 <= i < |s| => s[i] as int)
  }

  function Characters(s: string): seq<int> {
    [|s|] + Codes(s)
  }

  function Number(x: Option<int>): seq<int> {
    match x
    case None => [0, 0]
    case Some(value) => [1, value]
  }

  function OneMessage(m: Message): seq<int> {
    Characters(m.role) + Characters(m.content)
  }

  function Messages(messages: seq<Message>): seq<int> {
    if messages == [] then [] else OneMessage(messages[0]) + Messages(messages[1..])
  }

  /** The numbers of fixed place come first, the parts of varying size after them. */
  function Settings(r: Request): seq<int> {
    Number(match r.temperature case None => None case Some(value) => Some(value))
    + Number(match r.topP case None => None case Some(value) => Some(value))
    + Number(r.maxTokens) + [if r.stream then 1 else 0, |r.messages|]
  }

  function FlatRequest(r: Request): seq<int> {
    Settings(r) + (Characters(r.model) + Messages(r.messages))
  }

  function FlatBody(b: Body): seq<int> {
    [b.usage.prompt, b.usage.completion, b.usage.total] + (Characters(b.id) + Characters(b.content))
  }

  lemma {:induction false} CharactersRead(s: string, x: seq<int>, t: string, y: seq<int>)
    requires Characters(s) + x == Characters(t) + y
    ensures s == t && x == y
  {
    var a, b := Characters(s) + x, Characters(t) + y;
    assert a[0] == |s| && b[0] == |t|;
    assert a[1..|s| + 1] == Codes(s) && b[1..|t| + 1] == Codes(t);
    assert forall i :: 0 <= i < |s| ==> Codes(s)[i] == s[i] as int && Codes(t)[i] == t[i] as int;
    assert a[|s| + 1..] == x && b[|t| + 1..] == y;
  }

  lemma {:induction false} OneMessageReads(m: Message, x: seq<int>, n: Message, y: seq<int>)
    requires OneMessage(m) + x == OneMessage(n) + y
    ensures m == n && x == y
  {
    assert OneMessage(m) + x == Characters(m.role) + (Characters(m.content) + x);
    assert OneMessage(n) + y == Characters(n.role) + (Characters(n.content) + y);
    CharactersRead(m.role, Characters(m.content) + x, n.role, Characters(n.content) + y);
    CharactersRead(m.content, x, n.content, y);
  }

  lemma {:induction false} MessagesRead(p: seq<Message>, q: seq<Message>)
    requires |p| == |q| && Messages(p) == Messages(q)
    ensures p == q
  {
    if p != [] {
      OneMessageReads(p[0], Messages(p[1..]), q[0], Messages(q[1..]));
      MessagesRead(p[1..], q[1..]);
      assert p == [p[0]] + p[1..] && q == [q[0]] + q[1..];
    }
  }

  lemma {:induction false} SettingsRead(p: Request, q: Request)
    requires Settings(p) == Settings(q)
    ensures p.temperature == q.temperature && p.topP == q.topP && p.maxTokens == q.maxTokens
    ensures p.stream == q.stream && |p.messages| == |q.messages|
  {
    var a, b := Settings(p), Settings(q);
    assert a[0] == b[0] && a[1] == b[1] && a[2] == b[2] && a[3] == b[3];
    assert a[4] == b[4] && a[5] == b[5] && a[6] == b[6] && a[7] == b[7];
  }

  lemma {:induction false} RequestReads(p: Request, q: Request)
    requires FlatRequest(p) == FlatRequest(q)
    ensures p == q
  {
    assert |Settings(p)| == |Settings(q)| == 8;
    assert FlatRequest(p)[..8] == Settings(p) && FlatRequest(q)[..8] == Settings(q);
    assert FlatRequest(p)[8..] == Characters(p.model) + Messages(p.messages);
    assert FlatRequest(q)[8..] == Characters(q.model) + Messages(q.messages);
    SettingsRead(p, q);
    CharactersRead(p.model, Messages(p.messages), q.model, Messages(q.messages));
    MessagesRead(p.messages, q.messages);
  }

  lemma {:induction false} BodyReads(a: Body, b: Body)
    requires FlatBody(a) == FlatBody(b)
    ensures a == b
  {
    var f, g := FlatBody(a), FlatBody(b);
    assert f[0] == g[0] && f[1] == g[1] && f[2] == g[2];
    assert f[3..] == Characters(a.id) + Characters(a.content) && g[3..] == Characters(b.id) + Characters(b.content);
    CharactersRead(a.id, Characters(a.content), b.id, Characters(b.content));
    assert Characters(a.content) + [] == Characters(b.content) + [];
    CharactersRead(a.content, [], b.content, []);
  }

  // ------------------------------------------------------------ the codec

  function WriteRequest(r: Request): string {
    Text(FlatRequest(r))
  }

  function WriteBody(b: Body): string {
    Text(FlatBody(b))
  }

  ghost function ReadBody(text: string): Option<Body> {
    if exists b :: WriteBody(b) == text then
      var b :| WriteBody(b) == text;
      Some(b)
    else None
  }

  ghost function Sample(): Codec {
    Codec((text: string) => text, WriteRequest, WriteBody, text => ReadBody(text))
  }

  /** What the gateway asks of its codec can be had. */
  lemma {:induction false} SampleIsOk()
    ensures CodecOk(Sample())
  {
    forall p, q | WriteRequest(p) == WriteRequest(q) ensures p == q {
      TextReads(FlatRequest(p), FlatRequest(q));
      RequestReads(p, q);
    }
    forall p ensures NUL !in WriteRequest(p) {
      TextIsPlain(FlatRequest(p));
    }
    forall b ensures ReadBody(WriteBody(b)) == Some(b) {
      var read := ReadBody(WriteBody(b)).value;
      TextReads(FlatBody(read), FlatBody(b));
      BodyReads(read, b);
    }
  }
}
