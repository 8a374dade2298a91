/**
 * The network message layer: the millisecond clock conversion, the protocol
 * records and their constructors, and the envelope that `compile` builds and
 * `parse` opens.  The MessagePack serialiser is a parameter (`Codec`), assumed
 * lossless where a lemma needs it; the cipher is the one of module `Sym`.
 */
module NetMessage {
  import opened Errors
  import Sym

  const U64_MAX: int := 0xFFFF_FFFF_FFFF_FFFF

  // ---------------------------------------------------------------------------
  // Clock
  // ---------------------------------------------------------------------------

  /** The sub-second part of a duration, in nanoseconds. */
  type SubsecNanos = x: int | 0 <= x < 1_000_000_000

  /**
   * `get_millis` on the clock reading `secs` seconds and `nanos` nanoseconds
   * since the epoch: the reading in whole milliseconds, rounded down.
   */
  function GetMillis(secs: u64, nanos: SubsecNanos): (millis: u64)
    requires secs * 1000 + 999 <= U64_MAX
    ensures millis / 1000 == secs && millis % 1000 == nanos / 1_000_000
    ensures millis * 1_000_000 <= secs * 1_000_000_000 + nanos < (millis + 1) * 1_000_000
  {
    secs * 1000 + nanos / 1_000_000
  }

  // ---------------------------------------------------------------------------
  // Protocol records
  // ---------------------------------------------------------------------------

  /** A network endpoint, kept as its byte encoding. */
  datatype NetEndpoint = NetEndpoint(raw: Bytes)

  datatype InitialHandshakeRes = InitialHandshakeRes(sessionId: string, nodeId: Bytes, ephPub: Bytes)

  datatype PingReq = PingReq(sentTime: u64, nodeId: Bytes, discover: seq<NetEndpoint>)
  {
    /** `PingReq::new`, with `now` the clock reading in milliseconds. */
    static function New(nodeId: Bytes, discover: seq<NetEndpoint>, now: u64): (r: PingReq)
      ensures r.nodeId == nodeId && r.discover == discover && r.sentTime == now
    {
      PingReq(now, nodeId, discover)
    }
  }

  datatype PingRes = PingRes(originTime: u64, responseTime: u64, nodeId: Bytes, discover: seq<NetEndpoint>)
  {
    /** `PingRes::new`, with `now` the clock reading in milliseconds. */
    static function New(originTime: u64, nodeId: Bytes, discover: seq<NetEndpoint>, now: u64): (r: PingRes)
      ensures r.originTime == originTime && r.responseTime == now
      ensures r.nodeId == nodeId && r.discover == discover
    {
      PingRes(originTime, now, nodeId, discover)
    }
  }

  datatype UserMessage = UserMessage(data: Bytes)
  {
    static function New(data: Bytes): (r: UserMessage)
      ensures r.data == data
    {
      UserMessage(data)
    }
  }

  datatype Message =
    | PingReqMsg(pingReq: PingReq)
    | PingResMsg(pingRes: PingRes)
    | UserMsg(userMessage: UserMessage)

  /** The envelope: the nonce and the ciphertext of a serialised batch. */
  datatype MsgWrap = MsgWrap(nonce: Bytes, ciphertext: Bytes)

  /**
   * A response to a request made at clock reading `sent` and answered at
   * `answered` carries the request's time unchanged, and the signed gap
   * between its two stamps is the gap between the readings, whichever of the
   * two clocks is ahead.
   */
  lemma PingResEchoesRequestTime(nodeId: Bytes, discover: seq<NetEndpoint>, sent: u64, answered: u64)
    ensures var req := PingReq.New(nodeId, discover, sent);
            var res := PingRes.New(req.sentTime, nodeId, discover, answered);
            && res.originTime == req.sentTime
            && res.responseTime - res.originTime == answered - sent
  {
  }

  // ---------------------------------------------------------------------------
  // Serialisation
  // ---------------------------------------------------------------------------

  /** A serialiser for values of type `T`; either direction may fail with a reason. */
  datatype Codec<!T> = Codec(encode: T -> Result<Bytes, string>, decode: Bytes -> Result<T, string>)

  /** Whatever the serialiser encodes, it decodes back to the same value. */
  ghost predicate Lossless<T(!new)>(c: Codec<T>)
  {
    forall x :: c.encode(x).Ok? ==> c.decode(c.encode(x).value) == Ok(x)
  }

  /** The two serialisations the envelope uses: of a batch and of the wrapper. */
  datatype Serde = Serde(batch: Codec<seq<Message>>, wrap: Codec<MsgWrap>)

  // ---------------------------------------------------------------------------
  // The carrier request
  // ---------------------------------------------------------------------------

  /** The carrier's request kind, passed through untouched. */
  datatype RequestType = RequestType(name: string)

  datatype Request = Request(
    rtype: RequestType,
    httpMethod: string,
    path: string,
    code: string,
    status: string,
    headers: map<string, string>,
    body: Bytes)

  /** A request of the given kind with every other field empty. */
  function NewRequest(rtype: RequestType): Request
  {
    Request(rtype, "", "", "", "", map[], [])
  }

  const CONTENT_TYPE: string := "content-type"
  const OCTET_STREAM: string := "application/octet-stream"

  // ---------------------------------------------------------------------------
  // Envelope
  // ---------------------------------------------------------------------------

  /**
   * The body `compile` builds: the batch serialised, encrypted, and the
   * (nonce, ciphertext) pair serialised.  Each stage's failure is returned,
   * the encryption error unchanged.
   */
  function SealBatch(subMessages: seq<Message>, psk: Bytes, nonce: Sym.Nonce, serde: Serde, cipher: Sym.Cipher)
    : (r: Result<Bytes, Error>)
    ensures serde.batch.encode(subMessages).Err? ==> r == Err(Encode(serde.batch.encode(subMessages).error))
    ensures var packed := serde.batch.encode(subMessages);
            packed.Ok? && Sym.Enc(packed.value, psk, nonce, cipher).Err? ==>
              r == Err(Sym.Enc(packed.value, psk, nonce, cipher).error)
    ensures var packed := serde.batch.encode(subMessages);
            packed.Ok? && |packed.value| > Sym.MAX_PLAINTEXT ==> r == Err(Msg(Sym.SIZE_LIMIT_MESSAGE))
    ensures var packed := serde.batch.encode(subMessages);
            packed.Ok? && |packed.value| <= Sym.MAX_PLAINTEXT && !Sym.IsKey(psk) ==> r == Err(InvalidPresharedKey)
    ensures var packed := serde.batch.encode(subMessages);
            packed.Ok? && |packed.value| <= Sym.MAX_PLAINTEXT && Sym.IsKey(psk) ==>
              var w := serde.wrap.encode(MsgWrap(nonce, cipher.seal(packed.value, nonce, psk)));
              w.Err? ==> r == Err(Encode(w.error))
    ensures var packed := serde.batch.encode(subMessages);
            r.Ok? <==>
              && packed.Ok? && |packed.value| <= Sym.MAX_PLAINTEXT && Sym.IsKey(psk)
              && serde.wrap.encode(MsgWrap(nonce, cipher.seal(packed.value, nonce, psk))).Ok?
    ensures r.Ok? ==>
              r.value == serde.wrap.encode(MsgWrap(nonce, cipher.seal(serde.batch.encode(subMessages).value, nonce, psk))).value
  {
    match serde.batch.encode(subMessages)
    case Err(e) => Err(Encode(e))
    case Ok(packed) =>
      match Sym.Enc(packed, psk, nonce, cipher)
      case Err(e) => Err(e)
      case Ok((n, sealed)) =>
        match serde.wrap.encode(MsgWrap(n, sealed))
        case Err(e) => Err(Encode(e))
        case Ok(body) => Ok(body)
  }

  /**
   * `compile`: seals the batch and fills in the carrier request: a POST to
   * `/` followed by the session id, status 200 OK, an octet-stream content
   * type, and the sealed envelope as body.
   */
  method Compile(sessionId: string, subMessages: seq<Message>, rtype: RequestType, psk: Bytes,
                 nonce: Sym.Nonce, serde: Serde, cipher: Sym.Cipher)
    returns (r: Result<Request, Error>)
    ensures r.Err? <==> SealBatch(subMessages, psk, nonce, serde, cipher).Err?
    ensures r.Err? ==> SealBatch(subMessages, psk, nonce, serde, cipher) == Err(r.error)
    ensures r.Ok? ==>
      && r.value.rtype == rtype
      && r.value.httpMethod == "POST"
      && r.value.path == "/" + sessionId
      && r.value.code == "200"
      && r.value.status == "OK"
      && r.value.headers == NewRequest(rtype).headers[CONTENT_TYPE := OCTET_STREAM]
      && r.value.body == SealBatch(subMessages, psk, nonce, serde, cipher).value
  {
    var body := SealBatch(subMessages, psk, nonce, serde, cipher);
    if body.Err? {
      return Err(body.error);
    }
    var req := NewRequest(rtype);
    req := req.(httpMethod := "POST");
    req := req.(path := "/" + sessionId);
    req := req.(code := "200");
    req := req.(status := "OK");
    req := req.(headers := req.headers[CONTENT_TYPE := OCTET_STREAM]);
    req := req.(body := body.value);
    r := Ok(req);
  }

  /**
   * `parse`: decodes the wrapper, decrypts its ciphertext with its nonce, and
   * decodes the plaintext as a batch, stopping at the first stage that fails.
   */
  function Parse(message: Bytes, psk: Bytes, serde: Serde, cipher: Sym.Cipher): (r: Result<seq<Message>, Error>)
    ensures serde.wrap.decode(message).Err? ==> r == Err(Decode(serde.wrap.decode(message).error))
    ensures var w := serde.wrap.decode(message);
            w.Ok? && Sym.Dec(w.value.ciphertext, w.value.nonce, psk, cipher).Err? ==>
              r == Err(Sym.Dec(w.value.ciphertext, w.value.nonce, psk, cipher).error)
    ensures r.Err? ==>
      r.error.Decode? || r.error == InvalidNonce || r.error == InvalidPresharedKey || r.error == FailedToDecrypt
    ensures r.Ok? ==>
      var w := serde.wrap.decode(message);
      && w.Ok? && Sym.IsNonce(w.value.nonce) && Sym.IsKey(psk)
      && cipher.open(w.value.ciphertext, w.value.nonce, psk).Some?
      && serde.batch.decode(cipher.open(w.value.ciphertext, w.value.nonce, psk).value) == Ok(r.value)
    ensures var w := serde.wrap.decode(message);
            w.Ok? && Sym.Dec(w.value.ciphertext, w.value.nonce, psk, cipher).Ok? ==>
              var decoded := serde.batch.decode(Sym.Dec(w.value.ciphertext, w.value.nonce, psk, cipher).value);
              && (decoded.Ok? ==> r == Ok(decoded.value))
              && (decoded.Err? ==> r == Err(Decode(decoded.error)))
  {
    match serde.wrap.decode(message)
    case Err(e) => Err(Decode(e))
    case Ok(w) =>
      match Sym.Dec(w.ciphertext, w.nonce, psk, cipher)
      case Err(e) => Err(e)
      case Ok(plain) =>
        match serde.batch.decode(plain)
        case Err(e) => Err(Decode(e))
        case Ok(batch) => Ok(batch)
  }

  // ---------------------------------------------------------------------------
  // Properties of the envelope
  // ---------------------------------------------------------------------------

  /** Opening a sealed envelope with its key gives back the batch, in order. */
  lemma ParseSealBatchRoundTrip(subMessages: seq<Message>, psk: Bytes, nonce: Sym.Nonce, serde: Serde, cipher: Sym.Cipher)
    requires Lossless(serde.batch) && Lossless(serde.wrap) && Sym.Authenticated(cipher)
    requires SealBatch(subMessages, psk, nonce, serde, cipher).Ok?
    ensures Parse(SealBatch(subMessages, psk, nonce, serde, cipher).value, psk, serde, cipher) == Ok(subMessages)
  {
    var packed := serde.batch.encode(subMessages).value;
    var w := MsgWrap(nonce, cipher.seal(packed, nonce, psk));
    assert serde.wrap.decode(serde.wrap.encode(w).value) == Ok(w);
    assert Sym.Dec(w.ciphertext, w.nonce, psk, cipher) == Ok(packed);
  }

  /**
   * Opening a sealed envelope with a different well-formed key reports an
   * authentication failure, not a decoding error.
   */
  lemma ParseWithOtherKeyFailsToDecrypt(subMessages: seq<Message>, psk: Bytes, other: Bytes, nonce: Sym.Nonce,
                                        serde: Serde, cipher: Sym.Cipher)
    requires Lossless(serde.wrap) && Sym.Authenticated(cipher)
    requires SealBatch(subMessages, psk, nonce, serde, cipher).Ok?
    requires Sym.IsKey(other) && other != psk
    ensures Parse(SealBatch(subMessages, psk, nonce, serde, cipher).value, other, serde, cipher) == Err(FailedToDecrypt)
  {
    var packed := serde.batch.encode(subMessages).value;
    var w := MsgWrap(nonce, cipher.seal(packed, nonce, psk));
    assert serde.wrap.decode(serde.wrap.encode(w).value) == Ok(w);
  }

  /**
   * A wrapper that does not decode is reported before any decryption: the
   * outcome depends on neither the key, the cipher, nor the batch decoder.
   */
  lemma ParseStopsAtWrapper(message: Bytes, psk: Bytes, psk': Bytes, serde: Serde,
                            batch': Codec<seq<Message>>, cipher: Sym.Cipher, cipher': Sym.Cipher)
    requires serde.wrap.decode(message).Err?
    ensures Parse(message, psk, serde, cipher) == Parse(message, psk', Serde(batch', serde.wrap), cipher')
    ensures Parse(message, psk, serde, cipher).Err? && Parse(message, psk, serde, cipher).error.Decode?
  {
  }

  /**
   * A decryption failure is returned unchanged, whatever the batch decoder
   * would have done with a plaintext.
   */
  lemma ParseStopsAtDecryption(message: Bytes, psk: Bytes, serde: Serde, batch': Codec<seq<Message>>,
                               cipher: Sym.Cipher)
    requires serde.wrap.decode(message).Ok?
    requires var w := serde.wrap.decode(message).value; Sym.Dec(w.ciphertext, w.nonce, psk, cipher).Err?
    ensures var w := serde.wrap.decode(message).value;
            Parse(message, psk, Serde(batch', serde.wrap), cipher) == Err(Sym.Dec(w.ciphertext, w.nonce, psk, cipher).error)
  {
  }

  /**
   * End to end: the request `compile` builds for a batch carries a body that
   * `parse` opens to that batch under the same key.
   */
  method CompileThenParse(sessionId: string, subMessages: seq<Message>, rtype: RequestType, psk: Bytes,
                          nonce: Sym.Nonce, serde: Serde, cipher: Sym.Cipher)
    returns (req: Result<Request, Error>, reopened: Option<seq<Message>>)
    requires Lossless(serde.batch) && Lossless(serde.wrap) && Sym.Authenticated(cipher)
    ensures req.Ok? <==> SealBatch(subMessages, psk, nonce, serde, cipher).Ok?
    ensures req.Ok? ==> req.value.path == "/" + sessionId
    ensures req.Ok? ==> Parse(req.value.body, psk, serde, cipher) == Ok(subMessages)
    ensures req.Ok? ==> reopened == Some(subMessages)
    ensures req.Err? ==> reopened == None
  {
    req := Compile(sessionId, subMessages, rtype, psk, nonce, serde, cipher);
    reopened := None;
    if req.Ok? {
      ParseSealBatchRoundTrip(subMessages, psk, nonce, serde, cipher);
      var parsed := Parse(req.value.body, psk, serde, cipher);
      if parsed.Ok? {
        reopened := Some(parsed.value);
      }
    }
  }
}
