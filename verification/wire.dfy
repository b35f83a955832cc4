/**
 The wire side shared by both proxies: endpoint constants, the four-field
 request envelope and its JSON payload map, the transport (`getResponse`)
 as a function parameter, and the one step every action performs: draw a
 nonce, sign, POST to base + path.
 */
module Wire {
  import opened Wrappers
  import opened Random
  import opened Credential
  import opened GoStrconv

  const Base: string := "https://ji.luupi.net"
  const AuditPath: string := "/652/audit"
  const ClockPath: string := "/652/clock"
  const AccessPath: string := "/652/access"

  /** The action-dependent numeric field: `Timeout` for the time endpoints, `Offset` for the audit endpoint. */
  datatype Slot = Timeout(timeout: int) | Offset(offset: int)

  datatype Envelope = Envelope(nonce: string, act: string, slot: Slot, signature: string)

  /** A JSON value of the payload map. */
  datatype Value = Str(str: string) | Num(num: int)

  function SlotName(slot: Slot): string
  {
    match slot
    case Timeout(_) => "Timeout"
    case Offset(_) => "Offset"
  }

  function SlotValue(slot: Slot): int
  {
    match slot
    case Timeout(t) => t
    case Offset(o) => o
  }

  /** The `map[string]interface{}` each action hands to the transport. */
  function Payload(e: Envelope): (m: map<string, Value>)
    ensures m.Keys == {"Nonce", "Act", SlotName(e.slot), "Signature"}
    ensures |m| == 4
  {
    map["Nonce" := Str(e.nonce), "Act" := Str(e.act),
        SlotName(e.slot) := Num(SlotValue(e.slot)), "Signature" := Str(e.signature)]
  }

  /** Reads an envelope back from a payload map, as the receiving side would. */
  function FromPayload(m: map<string, Value>): Option<Envelope>
  {
    var slot :=
      if "Timeout" in m && m["Timeout"].Num? then Some(Timeout(m["Timeout"].num))
      else if "Offset" in m && m["Offset"].Num? then Some(Offset(m["Offset"].num))
      else None;
    if && slot.Some?
       && m.Keys == {"Nonce", "Act", SlotName(slot.value), "Signature"}
       && m["Nonce"].Str? && m["Act"].Str? && m["Signature"].Str?
    then Some(Envelope(m["Nonce"].str, m["Act"].str, slot.value, m["Signature"].str))
    else None
  }

  /** The payload map carries exactly the envelope: nothing is lost or added. */
  lemma PayloadRoundTrip(e: Envelope)
    ensures FromPayload(Payload(e)) == Some(e)
  {
    var m := Payload(e);
    match e.slot
    case Timeout(t) =>
      assert m["Timeout"] == Num(t);
    case Offset(o) =>
      assert "Timeout" !in m;
      assert m["Offset"] == Num(o);
  }

  /** A POST of one envelope to one absolute URL. */
  datatype Request = Request(url: string, envelope: Envelope)

  /** The failures `getResponse` can report: marshal, request construction, send, body read. */
  datatype TransportError = MarshalFailed | RequestFailed | SendFailed | ReadFailed

  /** Any received body counts as success, whatever the HTTP status. */
  datatype Response = Ok(body: string) | Fail(error: TransportError)

  /** The string half of `getResponse`'s result: the body, or "" alongside an error. */
  function BodyOf(resp: Response): string
  {
    match resp
    case Ok(body) => body
    case Fail(_) => ""
  }

  datatype Error = TransportFailure(transport: TransportError) | ParseFailure(parse: NumError)

  /** The injected collaborators: hash/encoding primitives and the HTTP transport. */
  datatype Client = Client(crypto: Crypto, transport: Request -> Response)

  /** What one action yields: Go's (value, error) pair, the requests sent, and the generator after it. */
  datatype Call<T> = Call(value: T, err: Option<Error>, sent: seq<Request>, rng: Rng)

  /**
   The request an action sends to `path` with action `act` and numeric slot
   `slot` when the generator stands at `rng`: the nonce is the next one drawn,
   the signature is computed over that same nonce, that same action and the
   path alone, and the target is base followed by that same path.
   */
  predicate IsSignedRequest(crypto: Crypto, rng: Rng, req: Request, path: string, act: string, slot: Slot)
  {
    var nonce := Nonce(rng).0;
    && req.url == Base + path
    && req.envelope == Envelope(nonce, act, slot, Signature(crypto, path, act, nonce))
  }

  /** The receiver's check: recover the path from the target and recompute the signature. */
  predicate Verifies(crypto: Crypto, req: Request)
  {
    && |Base| <= |req.url| && req.url[..|Base|] == Base
    && req.envelope.signature == Signature(crypto, req.url[|Base|..], req.envelope.act, req.envelope.nonce)
  }

  /** Every request the proxy signs passes the receiver's check. */
  lemma SignedRequestVerifies(crypto: Crypto, rng: Rng, req: Request, path: string, act: string, slot: Slot)
    requires IsSignedRequest(crypto, rng, req, path, act, slot)
    ensures Verifies(crypto, req)
  {
    assert req.url[|Base|..] == path;
  }

  /** Nonces are alphanumeric, so they never contain the separator's carriage return. */
  lemma NonceIsField(rng: Rng)
    ensures IsField(Nonce(rng).0)
  {
    NonceDraws(rng);
    var n := Nonce(rng).0;
    forall k | 0 <= k < |n| ensures n[k] != '\r' {
      assert IsAlphanumeric(n[k]);
    }
  }

  /**
   With collision-free hashing and encoding, two signed requests carrying the
   same signature were signed for the same path, the same action and the
   same nonce: a signature cannot be moved to another endpoint or action.
   */
  lemma SignedRequestsBinding(crypto: Crypto,
                              rng1: Rng, req1: Request, path1: string, act1: string, slot1: Slot,
                              rng2: Rng, req2: Request, path2: string, act2: string, slot2: Slot)
    requires Injective(crypto.sha256) && Injective(crypto.base64)
    requires IsField(path1) && IsField(act1) && IsField(path2) && IsField(act2)
    requires IsSignedRequest(crypto, rng1, req1, path1, act1, slot1)
    requires IsSignedRequest(crypto, rng2, req2, path2, act2, slot2)
    requires req1.envelope.signature == req2.envelope.signature
    ensures path1 == path2 && act1 == act2 && req1.envelope.nonce == req2.envelope.nonce
  {
    NonceIsField(rng1);
    NonceIsField(rng2);
    SignatureBinding(crypto, path1, act1, req1.envelope.nonce, path2, act2, req2.envelope.nonce);
  }

  datatype Exchange = Exchange(request: Request, response: Response, rng: Rng)

  /** The common body of every action: nonce, signed payload, one POST to base + path. */
  function Send(client: Client, rng: Rng, path: string, act: string, slot: Slot): (x: Exchange)
    ensures IsSignedRequest(client.crypto, rng, x.request, path, act, slot)
    ensures x.response == client.transport(x.request)
    ensures x.rng == rng.Skip(NonceLength)
  {
    var (nonce, rng') := Nonce(rng);
    var req := Request(Base + path, Envelope(nonce, act, slot, Signature(client.crypto, path, act, nonce)));
    Exchange(req, client.transport(req), rng')
  }
}
