/**
 `NinTimeProxy`: the three signed requests of the time-synchronisation
 exchange. `begin` and `end` go to the access endpoint with a 250000
 timeout; `observe` goes to the clock endpoint with timeout 0.
 */
module TimeProxy {
  import opened Wrappers
  import opened Random
  import opened GoStrings
  import opened Credential
  import opened Wire

  const BeginAct: string := "begin"
  const EndAct: string := "end"
  const ObserveAct: string := "observe"

  /** The `Timeout` slot of `begin` and `end`. */
  const SessionTimeout: int := 250000

  /** `begin`: one request whose response and error are discarded. */
  function Begin(client: Client, rng: Rng): (r: Call<()>)
    ensures |r.sent| == 1
    ensures IsSignedRequest(client.crypto, rng, r.sent[0], AccessPath, BeginAct, Timeout(SessionTimeout))
    ensures r.err == None
    ensures r.rng == rng.Skip(NonceLength)
  {
    var x := Send(client, rng, AccessPath, BeginAct, Timeout(SessionTimeout));
    Call((), None, [x.request], x.rng)
  }

  /** `end`: the server time is the response body with surrounding newlines removed. */
  function End(client: Client, rng: Rng): (r: Call<string>)
    ensures |r.sent| == 1
    ensures IsSignedRequest(client.crypto, rng, r.sent[0], AccessPath, EndAct, Timeout(SessionTimeout))
    ensures r.rng == rng.Skip(NonceLength)
    ensures |r.value| > 0 ==> r.value[0] != Newline && r.value[|r.value| - 1] != Newline
    ensures match client.transport(r.sent[0])
      case Ok(body) => r.err == None && |r.value| <= |body|
      case Fail(e) => r.err == Some(TransportFailure(e)) && r.value == ""
  {
    var x := Send(client, rng, AccessPath, EndAct, Timeout(SessionTimeout));
    var err := match x.response
      case Ok(_) => None
      case Fail(e) => Some(TransportFailure(e));
    Call(TrimNewlines(BodyOf(x.response)), err, [x.request], x.rng)
  }

  /** `clock`: one observe request; only its transport error is reported. */
  function Clock(client: Client, rng: Rng): (r: Call<()>)
    ensures |r.sent| == 1
    ensures IsSignedRequest(client.crypto, rng, r.sent[0], ClockPath, ObserveAct, Timeout(0))
    ensures r.rng == rng.Skip(NonceLength)
    ensures r.err.None? <==> client.transport(r.sent[0]).Ok?
  {
    var x := Send(client, rng, ClockPath, ObserveAct, Timeout(0));
    var err := match x.response
      case Ok(_) => None
      case Fail(e) => Some(TransportFailure(e));
    Call((), err, [x.request], x.rng)
  }

  /**
   The server time `end` returns is the body with only its leading and
   trailing newlines cut off: body == newlines + time + newlines.
   */
  lemma EndKeepsBodyCore(client: Client, rng: Rng) returns (i: nat)
    requires client.transport(End(client, rng).sent[0]).Ok?
    ensures var body := client.transport(End(client, rng).sent[0]).body;
      var t := End(client, rng).value;
      && i + |t| <= |body|
      && t == body[i..i + |t|]
      && (forall k :: 0 <= k < i ==> body[k] == Newline)
      && (forall k :: i + |t| <= k < |body| ==> body[k] == Newline)
  {
    var r := End(client, rng);
    var x := Send(client, rng, AccessPath, EndAct, Timeout(SessionTimeout));
    assert r.sent[0] == x.request;
    var body := x.response.body;
    assert r.value == TrimBoth(body, Newlines);
    i := TrimBothCharacterised(body, Newlines);
  }

  function ServerSendingTime(req: Request): Response
  {
    Ok("42\n")
  }

  lemma TrimTimeExample()
    ensures TrimNewlines("42\n") == "42"
  {
    var body := "42\n";
    assert TrimLeft(body, Newlines) == body;
    assert body[..2] == "42";
    assert TrimRight(body, Newlines) == TrimRight(body[..2], Newlines);
  }

  /** A server answering "42\n" to `end` yields the time "42" and no error. */
  lemma EndExample(crypto: Crypto, rng: Rng)
    ensures End(Client(crypto, ServerSendingTime), rng).value == "42"
    ensures End(Client(crypto, ServerSendingTime), rng).err == None
  {
    TrimTimeExample();
  }
}
