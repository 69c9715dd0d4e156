/** The signed session token of internal/dashboard/oidc.go. */
module Session {
  import opened Kube
  import opened Base64

  /** What a token is bound to: one Routemap and one identity provider client. */
  datatype Binding = Binding(ns: string, name: string, issuer: string, clientID: string)

  datatype Payload = Payload(sub: string, exp: int, binding: Binding)

  /** The keyed hash and the JSON codec, left open. */
  datatype Codec = Codec(
    mac: (seq<byte>, string) -> seq<byte>,
    marshal: Payload -> seq<byte>,
    unmarshal: seq<byte> -> Option<Payload>)

  const SECOND := 1_000_000_000
  const SESSION_TTL := 8 * 3600 * SECOND

  /** `time.Time.Unix` of a time in nanoseconds: rounds down. */
  function Unix(t: int): int { t / SECOND }

  function PayloadOf(sub: seq<byte>, now: int, b: Binding): Payload {
    Payload(Encode(sub), Unix(now + SESSION_TTL), b)
  }

  function Signed(c: Codec, key: seq<byte>, enc: string): string {
    enc + "." + Encode(c.mac(key, enc))
  }

  /** Decoding undoes encoding. */
  ghost predicate RoundTrips(c: Codec) {
    forall p :: c.unmarshal(c.marshal(p)) == Some(p)
  }

  /** The token issued at `now`; the callback sends it as the session cookie. */
  function Issued(c: Codec, key: seq<byte>, sub: seq<byte>, now: int, b: Binding): string {
    Signed(c, key, Encode(c.marshal(PayloadOf(sub, now, b))))
  }

  /** A token is accepted: signed with the key, readable, not expired, and bound to exactly `b`. */
  ghost predicate Acceptable(c: Codec, key: seq<byte>, token: string, b: Binding, now: int) {
    exists enc: string :: token == Signed(c, key, enc) && Admits(c, enc, b, now)
  }

  predicate Admits(c: Codec, enc: string, b: Binding, now: int) {
    match Decode(enc)
    case None => false
    case Some(bytes) =>
      match c.unmarshal(bytes)
      case None => false
      case Some(payload) => Unix(now) < payload.exp && payload.binding == b
  }

  /** A signed, readable payload behind `token`, before its last part. */
  ghost predicate Carries(c: Codec, key: seq<byte>, token: string, payload: Payload) {
    exists enc, bytes ::
      && token == enc + "." + Encode(c.mac(key, enc))
      && Decode(enc) == Some(bytes) && c.unmarshal(bytes) == Some(payload)
  }

  /** What acceptance means: a payload the token carries, not expired, with the same four bindings. */
  lemma AcceptableMeans(c: Codec, key: seq<byte>, token: string, b: Binding, now: int)
    ensures Acceptable(c, key, token, b, now) <==>
      exists p ::
        && Carries(c, key, token, p) && Unix(now) < p.exp
        && p.binding.ns == b.ns && p.binding.name == b.name
        && p.binding.issuer == b.issuer && p.binding.clientID == b.clientID
  {
    if Acceptable(c, key, token, b, now) {
      var enc :| token == Signed(c, key, enc) && Admits(c, enc, b, now);
      var p := c.unmarshal(Decode(enc).value).value;
      assert Carries(c, key, token, p);
    }
    if p :| Carries(c, key, token, p) && Unix(now) < p.exp && p.binding == b {
      var enc, bytes :|
        && token == enc + "." + Encode(c.mac(key, enc))
        && Decode(enc) == Some(bytes) && c.unmarshal(bytes) == Some(p);
      assert token == Signed(c, key, enc) && Admits(c, enc, b, now);
    }
  }

  /** With no dot behind it, the separator of one reading lies no earlier than that of another. */
  lemma LastDotIsLast(head: string, tail: string, head': string, tail': string)
    requires head + "." + tail == head' + "." + tail' && '.' !in tail
    ensures |head'| <= |head|
  {
    var token := head + "." + tail;
    assert token[|head'|] == '.' by {
      assert token == head' + "." + tail';
    }
    forall i | |head| < i < |token| ensures token[i] != '.' {
      assert token[i] == tail[i - |head| - 1];
    }
  }

  lemma SameSplit(head: string, tail: string, head': string, tail': string)
    requires head + "." + tail == head' + "." + tail' && '.' !in tail && '.' !in tail'
    ensures head == head' && tail == tail'
  {
    LastDotIsLast(head, tail, head', tail');
    LastDotIsLast(head', tail', head, tail);
    var token, token' := head + "." + tail, head' + "." + tail';
    assert token[..|head|] == head && token'[..|head|] == head';
    assert token[|head| + 1..] == tail && token'[|head| + 1..] == tail';
  }

  /** A signed token reads back as its payload and its signature. */
  lemma SignedSplits(c: Codec, key: seq<byte>, enc: string, head: string, tail: string)
    requires Signed(c, key, enc) == head + "." + tail && '.' !in tail
    ensures head == enc && tail == Encode(c.mac(key, enc))
  {
    RoundTrip(c.mac(key, enc));
    SameSplit(head, tail, enc, Encode(c.mac(key, enc)));
  }

  /** The scan for the last dot. */
  method LastDot(token: string) returns (dot: int)
    ensures -1 <= dot < |token| && '.' !in token[dot + 1..]
    ensures dot >= 0 ==> token[dot] == '.'
  {
    dot := -1;
    var i := |token| - 1;
    while i >= 0
      invariant -1 <= i < |token| && dot == -1
      invariant '.' !in token[i + 1..]
    {
      if token[i] == '.' {
        dot := i;
        return;
      }
      assert token[i..] == [token[i]] + token[i + 1..];
      i := i - 1;
    }
  }

  lemma AcceptableAtLastDot(c: Codec, key: seq<byte>, token: string, b: Binding, now: int, dot: int)
    requires -1 <= dot < |token| && '.' !in token[dot + 1..]
    requires dot >= 0 ==> token[dot] == '.'
    ensures Acceptable(c, key, token, b, now) <==>
      dot >= 0 && token[dot + 1..] == Encode(c.mac(key, token[..dot])) && Admits(c, token[..dot], b, now)
  {
    if dot < 0 {
      forall enc ensures token != Signed(c, key, enc) {
        assert Signed(c, key, enc)[|enc|] == '.';
      }
    } else {
      assert token == token[..dot] + "." + token[dot + 1..];
      forall enc | token == Signed(c, key, enc)
        ensures enc == token[..dot] && token[dot + 1..] == Encode(c.mac(key, enc))
      {
        SignedSplits(c, key, enc, token[..dot], token[dot + 1..]);
      }
      if token[dot + 1..] == Encode(c.mac(key, token[..dot])) {
        assert token == Signed(c, key, token[..dot]);
      }
    }
  }

  method VerifySessionToken(c: Codec, key: seq<byte>, token: string, b: Binding, now: int) returns (ok: bool)
    ensures ok <==> Acceptable(c, key, token, b, now)
  {
    var dot := LastDot(token);
    AcceptableAtLastDot(c, key, token, b, now, dot);
    if dot < 0 {
      return false;
    }
    var payloadEnc, sigEnc := token[..dot], token[dot + 1..];
    if sigEnc != Encode(c.mac(key, payloadEnc)) {
      return false;
    }
    var payloadBytes := Decode(payloadEnc);
    if payloadBytes.None? {
      return false;
    }
    var payload := c.unmarshal(payloadBytes.value);
    if payload.None? {
      return false;
    }
    if Unix(now) >= payload.value.exp {
      return false;
    }
    return payload.value.binding.ns == b.ns && payload.value.binding.name == b.name
        && payload.value.binding.issuer == b.issuer && payload.value.binding.clientID == b.clientID;
  }

  /**
   * Issue then verify: a token made for `a` at `t0` is accepted for `b` at `t` exactly when all four bindings
   * agree and fewer than 8 hours have passed on the clock in whole seconds; under another key it also takes a
   * collision of the keyed hash.
   */
  lemma TokenAcceptedExactly(
    c: Codec, key: seq<byte>, key': seq<byte>, sub: seq<byte>, t0: int, a: Binding, b: Binding, t: int)
    requires RoundTrips(c)
    ensures var enc := Encode(c.marshal(PayloadOf(sub, t0, a)));
      Acceptable(c, key', Signed(c, key, enc), b, t)
      <==> a == b && Unix(t) < Unix(t0) + 8 * 3600 && c.mac(key', enc) == c.mac(key, enc)
  {
    var payload := PayloadOf(sub, t0, a);
    var enc := Encode(c.marshal(payload));
    var token := Signed(c, key, enc);
    RoundTrip(c.marshal(payload));
    RoundTrip(c.mac(key, enc));
    RoundTrip(c.mac(key', enc));
    if Acceptable(c, key', token, b, t) {
      var enc' :| token == Signed(c, key', enc') && Admits(c, enc', b, t);
      SignedSplits(c, key', enc', enc, Encode(c.mac(key, enc)));
    }
    if c.mac(key', enc) == c.mac(key, enc) {
      assert token == Signed(c, key', enc);
    }
  }

  lemma IssuedCarries(c: Codec, key: seq<byte>, sub: seq<byte>, now: int, b: Binding)
    requires RoundTrips(c)
    ensures Carries(c, key, Issued(c, key, sub, now, b), PayloadOf(sub, now, b))
    ensures Decode(PayloadOf(sub, now, b).sub) == Some(sub) && PayloadOf(sub, now, b).exp == Unix(now) + 8 * 3600
  {
    RoundTrip(sub);
    RoundTrip(c.marshal(PayloadOf(sub, now, b)));
  }

  /**
   * `random` is what the random source delivered, if it did. The token is accepted under its own key for the
   * binding it was made for and no other, and for eight hours of whole seconds and no longer.
   */
  method MakeSessionToken(c: Codec, key: seq<byte>, random: Option<seq<byte>>, now: int, b: Binding)
    returns (token: Option<string>)
    ensures token.Some? <==> random.Some?
    ensures token.Some? ==> token.value == Issued(c, key, random.value, now, b)
    ensures token.Some? && RoundTrips(c) ==>
      exists p ::
        && Carries(c, key, token.value, p) && p.binding == b
        && Decode(p.sub) == random && p.exp == Unix(now) + 8 * 3600
    ensures token.Some? && RoundTrips(c) ==>
      forall b', t :: Acceptable(c, key, token.value, b', t) <==> b' == b && Unix(t) < Unix(now) + 8 * 3600
  {
    if random.None? {
      return None;
    }
    var payload := Payload(Encode(random.value), Unix(now + SESSION_TTL), b);
    var payloadEnc := Encode(c.marshal(payload));
    var sig := Encode(c.mac(key, payloadEnc));
    token := Some(payloadEnc + "." + sig);
    if RoundTrips(c) {
      IssuedCarries(c, key, random.value, now, b);
      forall b', t
        ensures Acceptable(c, key, token.value, b', t) <==> b' == b && Unix(t) < Unix(now) + 8 * 3600
      {
        TokenAcceptedExactly(c, key, key, random.value, now, b, b', t);
      }
    }
  }

  /** The whole-second comparison against the exact lifetime: off by less than one second, on the safe side. */
  lemma LifetimeInSeconds(t0: int, t: int)
    ensures Unix(t) < Unix(t0) + 8 * 3600 ==> t < t0 + SESSION_TTL
    ensures t <= t0 + SESSION_TTL - SECOND ==> Unix(t) < Unix(t0) + 8 * 3600
  {
  }
}
