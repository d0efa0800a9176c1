/** How the gateway names things in the shared store. */
module Keys {
  import opened Results
  import Arithmetic
  import Text

  datatype Message = Message(role: string, content: string)

  /** A 64-bit floating-point number, by its bits. */
  type Float64 = bits: int | 0 <= bits < 0x1_0000_0000_0000_0000

  /** Both zeros: the bits are all clear, but for the sign. */
  predicate IsZero(number: Float64) {
    number == 0 || number == 0x8000_0000_0000_0000
  }

  datatype Request = Request(
    model: string,
    messages: seq<Message>,
    temperature: Option<Float64>,
    topP: Option<Float64>,
    maxTokens: Option<int>,
    stream: bool)

  datatype Usage = Usage(prompt: int, completion: int, total: int)

  /** The part of a response that JSON carries; the name of the provider is not in it. */
  datatype Body = Body(id: string, content: string, usage: Usage)

  datatype Response = Response(provider: string, body: Body)

  /** SHA-256 and JSON, seen from outside. */
  datatype Codec = Codec(
    hash: string -> string,
    encodeRequest: Request -> string,
    encodeBody: Body -> string,
    decodeBody: string -> Option<Body>)

  const NUL := '\0'

  /** The digest does not collide, JSON encoding loses nothing, and JSON text holds no NUL. */
  ghost predicate CodecOk(c: Codec) {
    && (forall a, b :: c.hash(a) == c.hash(b) ==> a == b)
    && (forall p, q :: c.encodeRequest(p) == c.encodeRequest(q) ==> p == q)
    && (forall p :: NUL !in c.encodeRequest(p))
    && (forall b :: c.decodeBody(c.encodeBody(b)) == Some(b))
  }

  function Framed(identity: string, text: string): string {
    identity + [NUL] + text
  }

  function ScopedKey(c: Codec, identity: string, key: string): string {
    c.hash(Framed(identity, key))
  }

  function Fingerprint(c: Codec, request: Request): string {
    c.hash(c.encodeRequest(request))
  }

  function Cacheable(request: Request): bool {
    !request.stream && request.temperature.Some? && IsZero(request.temperature.value)
  }

  function CacheKey(c: Codec, identity: string, request: Request): string {
    c.hash(Framed(identity, c.encodeRequest(request)))
  }

  predicate KeyChar(ch: char) {
    'a' <= ch <= 'z' || 'A' <= ch <= 'Z' || '0' <= ch <= '9' || ch in "._:-"
  }

  /** A blank key is no key; otherwise at most 128 characters of the key alphabet. */
  function NormalizeKey(value: string): (r: Result<string, string>)
    ensures r.Ok? ==> NUL !in r.value && |r.value| <= 128 && forall k :: 0 <= k < |r.value| ==> KeyChar(r.value[k])
  {
    var key := Text.TrimSpace(value);
    if key == "" then Ok("")
    else if |key| > 128 then Err("invalid_idempotency_key")
    else if forall k :: 0 <= k < |key| ==> KeyChar(key[k]) then Ok(key)
    else Err("invalid_idempotency_key")
  }

  /** Keys of the alphabet are accepted as they are, so an accepted key stays the same when normalized again. */
  lemma {:induction false} NormalizedKeyIsStable(value: string)
    ensures |value| <= 128 && (forall k :: 0 <= k < |value| ==> KeyChar(value[k])) ==> NormalizeKey(value) == Ok(value)
    ensures NormalizeKey(value).Ok? ==> NormalizeKey(NormalizeKey(value).value) == NormalizeKey(value)
  {
    if forall k :: 0 <= k < |value| ==> KeyChar(value[k]) {
      Text.TrimNothing(value);
    }
    if NormalizeKey(value).Ok? {
      Text.TrimNothing(NormalizeKey(value).value);
    }
  }

  /** White space around a key makes no difference, so a key of the alphabet is accepted in any surroundings. */
  lemma {:induction false} SurroundingsAreIgnored(before: string, key: string, after: string)
    requires Text.AllSpace(before) && Text.AllSpace(after)
    ensures NormalizeKey(before + key + after) == NormalizeKey(key)
  {
    Text.TrimSurrounded(before, key, after);
  }

  /**
   A number in units of the least positive one, by the parts of its bits: 52 of fraction, 11 of
   exponent, and the sign.  It is zero just when the number is.
   */
  ghost function Units(number: Float64): nat {
    var fraction, exponent := number % 0x10_0000_0000_0000, (number / 0x10_0000_0000_0000) % 0x800;
    if exponent == 0 then fraction else (0x10_0000_0000_0000 + fraction) * Arithmetic.Pow2(exponent - 1)
  }

  lemma {:induction false} ZeroHasNoUnits(number: Float64)
    ensures IsZero(number) <==> Units(number) == 0
  {
    var fraction, upper := number % 0x10_0000_0000_0000, number / 0x10_0000_0000_0000;
    assert number == upper * 0x10_0000_0000_0000 + fraction && upper < 0x1000;
    if upper % 0x800 != 0 {
      ProductIsPositive(0x10_0000_0000_0000 + fraction, Arithmetic.Pow2(upper % 0x800 - 1));
    }
  }

  lemma {:induction false} ProductIsPositive(x: int, y: int)
    requires 0 < x && 0 < y
    ensures 0 < x * y
  {
  }

  /** Only a request for a whole answer whose temperature is given and zero may be cached, and every such one. */
  lemma {:induction false} CacheableExactlyAtZero(request: Request)
    ensures Cacheable(request) <==>
      !request.stream && request.temperature.Some? && Units(request.temperature.value) == 0
  {
    if request.temperature.Some? {
      ZeroHasNoUnits(request.temperature.value);
    }
  }

  lemma {:induction false} ShorterIdentityShows(a: string, x: string, b: string, y: string)
    requires NUL !in x && |a| < |b|
    ensures Framed(a, x) != Framed(b, y)
  {
    var f, g := Framed(a, x), Framed(b, y);
    if |f| == |g| {
      assert g[|b|] == NUL;
      assert f[|b|] == x[|b| - |a| - 1];
    }
  }

  /** Whatever the identity, the last NUL tells where it stops: the framing is injective. */
  lemma {:induction false} FramingIsInjective(a: string, x: string, b: string, y: string)
    requires NUL !in x && NUL !in y
    ensures Framed(a, x) == Framed(b, y) <==> a == b && x == y
  {
    var f, g := Framed(a, x), Framed(b, y);
    if |a| < |b| {
      ShorterIdentityShows(a, x, b, y);
    } else if |b| < |a| {
      ShorterIdentityShows(b, y, a, x);
    } else {
      assert f[..|a|] == a && g[..|b|] == b;
      assert f[|a| + 1..] == x && g[|b| + 1..] == y;
    }
  }

  lemma {:induction false} ScopedKeyIsInjective(c: Codec, a: string, x: string, b: string, y: string)
    requires CodecOk(c) && NUL !in x && NUL !in y
    ensures ScopedKey(c, a, x) == ScopedKey(c, b, y) <==> a == b && x == y
  {
    FramingIsInjective(a, x, b, y);
  }

  lemma {:induction false} CacheKeyIsInjective(c: Codec, a: string, p: Request, b: string, q: Request)
    requires CodecOk(c)
    ensures CacheKey(c, a, p) == CacheKey(c, b, q) <==> a == b && p == q
  {
    FramingIsInjective(a, c.encodeRequest(p), b, c.encodeRequest(q));
  }

  /** Cached responses, idempotency records and buckets live under names that cannot meet. */
  lemma {:induction false} NamespacesAreDisjoint(x: string, y: string)
    ensures "modelgate:idempotency:" + x != "modelgate:cache:" + y
    ensures "modelgate:ratelimit:" + x != "modelgate:cache:" + y
    ensures "modelgate:ratelimit:" + x != "modelgate:idempotency:" + y
  {
    assert ("modelgate:idempotency:" + x)[10] == 'i';
    assert ("modelgate:cache:" + y)[10] == 'c';
    assert ("modelgate:ratelimit:" + x)[10] == 'r';
    assert ("modelgate:idempotency:" + y)[10] == 'i';
  }
}
