/**
 `NinAuditLogProxy`: read the base offset, fetch the entries from there,
 then move the remote cursor. All three requests go to the audit endpoint
 with an `Offset` slot.
 */
module AuditLogProxy {
  import opened Wrappers
  import opened Random
  import opened Credential
  import opened GoStrings
  import opened GoStrconv
  import opened Wire

  /** The empty action asks for the base offset. */
  const BaseAct: string := ""
  const FetchAct: string := "burble"
  const ResetAct: string := "chortle"

  /** `getAuditBase`: the base offset is the integer parse of the whitespace-trimmed body. */
  function GetAuditBase(client: Client, rng: Rng): (r: Call<Int64>)
    ensures |r.sent| == 1
    ensures IsSignedRequest(client.crypto, rng, r.sent[0], AuditPath, BaseAct, Offset(0))
    ensures r.rng == rng.Skip(NonceLength)
    ensures r.err == Some(ParseFailure(ErrSyntax)) ==> r.value == 0
    ensures r.err == Some(ParseFailure(ErrRange)) ==> r.value == MinInt64 || r.value == MaxInt64
  {
    var x := Send(client, rng, AuditPath, BaseAct, Offset(0));
    match x.response
    case Fail(e) => Call(0, Some(TransportFailure(e)), [x.request], x.rng)
    case Ok(body) =>
      var (n, perr) := Atoi(TrimSpace(body));
      Call(n, if perr.None? then None else Some(ParseFailure(perr.value)), [x.request], x.rng)
  }

  /**
   What `getAuditBase` reports: 0 and the transport error when the request
   fails; otherwise success exactly when the trimmed body is a numeral that
   fits in an int64, with that numeral's value, and a parse error if not:
   0 for a syntax error, the int64 bound on the sign's side for a range error.
   */
  lemma GetAuditBaseResult(client: Client, rng: Rng)
    ensures var r := GetAuditBase(client, rng);
      match client.transport(r.sent[0])
      case Fail(e) => r.value == 0 && r.err == Some(TransportFailure(e))
      case Ok(body) =>
        var t := TrimSpace(body);
        && (r.err.None? <==> IsNumeral(t) && MinInt64 <= NumeralValue(t) <= MaxInt64)
        && (r.err.None? ==> r.value == NumeralValue(t))
        && (r.err.Some? ==> r.err.value.ParseFailure?)
        && (r.err == Some(ParseFailure(ErrSyntax)) ==> r.value == 0)
        && (r.err == Some(ParseFailure(ErrRange)) ==>
              |t| > 0 && r.value == (if t[0] == '-' then MinInt64 else MaxInt64))
  {
    var x := Send(client, rng, AuditPath, BaseAct, Offset(0));
    if x.response.Ok? {
      AtoiAccepts(TrimSpace(x.response.body));
    }
  }

  /** `getAuditLog`: the entries are the body's newline-separated pieces, or none on a transport error. */
  function GetAuditLog(client: Client, rng: Rng, offset: Int64): (r: Call<seq<string>>)
    ensures |r.sent| == 1
    ensures IsSignedRequest(client.crypto, rng, r.sent[0], AuditPath, FetchAct, Offset(offset))
    ensures r.rng == rng.Skip(NonceLength)
    ensures r.err.None? <==> client.transport(r.sent[0]).Ok?
  {
    var x := Send(client, rng, AuditPath, FetchAct, Offset(offset));
    match x.response
    case Fail(e) => Call([], Some(TransportFailure(e)), [x.request], x.rng)
    case Ok(body) => Call(Split(body), None, [x.request], x.rng)
  }

  /**
   The entries `getAuditLog` returns: none with the transport error on
   failure; otherwise newline-free pieces, one more than the body's
   newlines, that join back into the body.
   */
  lemma GetAuditLogResult(client: Client, rng: Rng, offset: Int64)
    ensures var r := GetAuditLog(client, rng, offset);
      match client.transport(r.sent[0])
      case Fail(e) => r.value == [] && r.err == Some(TransportFailure(e))
      case Ok(body) =>
        && Join(r.value) == body
        && |r.value| == NewlineCount(body) + 1
        && (forall k :: 0 <= k < |r.value| ==> Newline !in r.value[k])
  {
    var x := Send(client, rng, AuditPath, FetchAct, Offset(offset));
    if x.response.Ok? {
      JoinSplit(x.response.body);
    }
  }

  /** `resetAuditLog`: sends the offset clamped at zero; any error is dropped. */
  function ResetAuditLog(client: Client, rng: Rng, offset: Int64): (r: Call<()>)
    ensures |r.sent| == 1
    ensures r.sent[0].envelope.slot.Offset?
    ensures IsSignedRequest(client.crypto, rng, r.sent[0], AuditPath, ResetAct, r.sent[0].envelope.slot)
    ensures var sentOffset := r.sent[0].envelope.slot.offset;
      && sentOffset >= 0
      && (offset >= 0 ==> sentOffset == offset)
      && (offset < 0 ==> sentOffset == 0)
    ensures r.err == None
    ensures r.rng == rng.Skip(NonceLength)
  {
    var clamped := if offset < 0 then 0 else offset;
    var x := Send(client, rng, AuditPath, ResetAct, Offset(clamped));
    Call((), None, [x.request], x.rng)
  }

  /**
   Go's `len(entries) + base - 1` on 64-bit ints: exact while it fits, and
   wrapped by 2^64 when it falls off either end.
   */
  function ResetCursor(entries: nat, base: Int64): (c: Int64)
    ensures MinInt64 <= entries + base - 1 <= MaxInt64 ==> c == entries + base - 1
    ensures entries == 0 && base == MinInt64 ==> c == MaxInt64
    ensures MaxInt64 < entries + base - 1 <= MaxInt64 + Modulus64 ==> c == entries + base - 1 - Modulus64
  {
    Wrap64(entries + base - 1)
  }

  function AtLeastZero(x: int): nat
  {
    if x < 0 then 0 else x
  }

  /**
   `HandleAuditLogs`: base, fetch, reset, in that order; the entries are
   returned with no error whatever failed, and the reset always happens,
   at the entry count plus the base minus one.
   */
  function HandleAuditLogs(client: Client, rng: Rng): (r: Call<seq<string>>)
    ensures r.err == None
    ensures |r.sent| == 3
    ensures r.rng == rng.Skip(3 * NonceLength)
    ensures r.sent[0] == GetAuditBase(client, rng).sent[0]
    ensures r.sent[1] == GetAuditLog(client, rng.Skip(NonceLength), GetAuditBase(client, rng).value).sent[0]
    ensures r.value == GetAuditLog(client, rng.Skip(NonceLength), GetAuditBase(client, rng).value).value
    ensures r.sent[2] == ResetAuditLog(client, rng.Skip(2 * NonceLength),
                                       ResetCursor(|r.value|, GetAuditBase(client, rng).value)).sent[0]
  {
    var base := GetAuditBase(client, rng);
    var logs := GetAuditLog(client, base.rng, base.value);
    var reset := ResetAuditLog(client, logs.rng, ResetCursor(|logs.value|, base.value));
    Call(logs.value, None, base.sent + logs.sent + reset.sent, reset.rng)
  }

  /**
   The reset request of `HandleAuditLogs` is the third signed request of the
   run and carries the wrapped cursor clamped at zero.
   */
  lemma HandleAuditLogsReset(client: Client, rng: Rng)
    ensures var r := HandleAuditLogs(client, rng);
      IsSignedRequest(client.crypto, rng.Skip(2 * NonceLength), r.sent[2], AuditPath, ResetAct,
        Offset(AtLeastZero(ResetCursor(|r.value|, GetAuditBase(client, rng).value))))
  {
  }

  /** The offset the reset request of `HandleAuditLogs` carries. */
  function SentResetOffset(client: Client, rng: Rng): int
  {
    SlotValue(HandleAuditLogs(client, rng).sent[2].envelope.slot)
  }

  /** The three requests carry the next three nonces, in order. */
  lemma HandleAuditLogsNonces(client: Client, rng: Rng)
    ensures var sent := HandleAuditLogs(client, rng).sent;
      && sent[0].envelope.nonce == Nonce(rng).0
      && sent[1].envelope.nonce == Nonce(rng.Skip(NonceLength)).0
      && sent[2].envelope.nonce == Nonce(rng.Skip(2 * NonceLength)).0
  {
    HandleAuditLogsReset(client, rng);
  }

  /**
   After a successful fetch of `body` the cursor moves to base plus the
   number of newlines in the body (clamped at zero), when that fits in an int64.
   */
  lemma ResetAfterFetch(client: Client, rng: Rng)
    requires var base := GetAuditBase(client, rng).value;
      && client.transport(GetAuditLog(client, rng.Skip(NonceLength), base).sent[0]).Ok?
      && base + NewlineCount(client.transport(GetAuditLog(client, rng.Skip(NonceLength), base).sent[0]).body) <= MaxInt64
    ensures var base := GetAuditBase(client, rng).value;
      var body := client.transport(GetAuditLog(client, rng.Skip(NonceLength), base).sent[0]).body;
      var moved := base + NewlineCount(body);
      SentResetOffset(client, rng) == if moved < 0 then 0 else moved
  {
  }

  /**
   A failed fetch returns no entries, so the cursor is reset one position
   behind the base (clamped at zero); for the smallest int64 base the
   subtraction wraps round to the largest int64.
   */
  lemma ResetAfterFailedFetch(client: Client, rng: Rng)
    requires var base := GetAuditBase(client, rng).value;
      client.transport(GetAuditLog(client, rng.Skip(NonceLength), base).sent[0]).Fail?
    ensures var base := GetAuditBase(client, rng).value;
      SentResetOffset(client, rng)
        == if base == MinInt64 then MaxInt64 else if base < 1 then 0 else base - 1
  {
    var base := GetAuditBase(client, rng).value;
    assert ResetCursor(0, base) == if base == MinInt64 then MaxInt64 else base - 1;
  }

  /** An empty body is one empty entry, so the cursor is reset to the base itself. */
  lemma ResetAfterEmptyLog(client: Client, rng: Rng)
    requires var base := GetAuditBase(client, rng).value;
      client.transport(GetAuditLog(client, rng.Skip(NonceLength), base).sent[0]) == Ok("")
    ensures HandleAuditLogs(client, rng).value == [""]
    ensures var base := GetAuditBase(client, rng).value;
      SentResetOffset(client, rng) == if base < 0 then 0 else base
  {
    var base := GetAuditBase(client, rng).value;
    var logs := GetAuditLog(client, rng.Skip(NonceLength), base);
    SplitJoin(logs.value);
  }

  /** A body holding the decimal form of `n`, padded with white space, is read as `n` with no error. */
  lemma GetAuditBaseReadsNumber(client: Client, rng: Rng, pre: string, n: Int64, post: string)
    requires forall k :: 0 <= k < |pre| ==> IsSpace(pre[k])
    requires forall k :: 0 <= k < |post| ==> IsSpace(post[k])
    requires client.transport(GetAuditBase(client, rng).sent[0]) == Ok(pre + Itoa(n) + post)
    ensures GetAuditBase(client, rng).value == n
    ensures GetAuditBase(client, rng).err == None
  {
    var s := Itoa(n);
    assert TrimSpace(pre + s + post) == s by {
      ItoaEnds(n);
      NumeralCharNotSpace(s[0]);
      NumeralCharNotSpace(s[|s| - 1]);
      TrimBothPadded(pre, s, post, Spaces);
    }
    AtoiItoa(n);
  }

  /** An upstream answering "10" for the base and "e1\ne2" for the log. */
  function ExampleUpstream(req: Request): Response
  {
    if req.envelope.act == BaseAct then Ok("10")
    else if req.envelope.act == FetchAct then Ok("e1\ne2")
    else Ok("")
  }

  lemma ExampleLogSplits()
    ensures Split("e1\ne2") == ["e1", "e2"]
  {
    SplitAtFirstNewline("e1", "e2");
    SplitNoNewline("e2");
    var b := "e1\ne2";
    assert b[0] == 'e' && b[1] == '1' && b[2] == Newline && b[3] == 'e' && b[4] == '2';
    assert b == "e1" + [Newline] + "e2";
  }

  /** A base body of exactly "10" is read as 10. */
  lemma BaseBodyTen(client: Client, rng: Rng)
    requires client.transport(GetAuditBase(client, rng).sent[0]) == Ok("10")
    ensures GetAuditBase(client, rng).value == 10
    ensures GetAuditBase(client, rng).err == None
  {
    var body := "10";
    assert TrimSpace(body) == body by {
      assert body[0] == '1' && body[1] == '0';
      NumeralCharNotSpace(body[0]);
      NumeralCharNotSpace(body[1]);
      TrimBothKeepsClean(body, Spaces);
    }
    assert Atoi(body) == (10, None) by {
      ItoaTen();
      AtoiItoa(10);
    }
  }

  lemma ExampleBase(crypto: Crypto, rng: Rng)
    ensures GetAuditBase(Client(crypto, ExampleUpstream), rng).value == 10
  {
    var client := Client(crypto, ExampleUpstream);
    assert GetAuditBase(client, rng).sent[0].envelope.act == BaseAct;
    BaseBodyTen(client, rng);
  }

  lemma ExampleEntries(crypto: Crypto, rng: Rng)
    ensures GetAuditLog(Client(crypto, ExampleUpstream), rng, 10).value == ["e1", "e2"]
  {
    var client := Client(crypto, ExampleUpstream);
    var logs := GetAuditLog(client, rng, 10);
    assert logs.sent[0].envelope.act == FetchAct;
    assert client.transport(logs.sent[0]) == Ok("e1\ne2");
    ExampleLogSplits();
  }

  /** Base "10" and log "e1\ne2" give the entries ["e1", "e2"] and a reset to 11. */
  lemma HandleAuditLogsExample(crypto: Crypto, rng: Rng)
    ensures HandleAuditLogs(Client(crypto, ExampleUpstream), rng).value == ["e1", "e2"]
    ensures SentResetOffset(Client(crypto, ExampleUpstream), rng) == 11
  {
    var client := Client(crypto, ExampleUpstream);
    ExampleBase(crypto, rng);
    ExampleEntries(crypto, rng.Skip(NonceLength));
    var r := HandleAuditLogs(client, rng);
    assert ResetCursor(2, 10) == 11;
    var reset := ResetAuditLog(client, rng.Skip(2 * NonceLength), 11);
    assert r.sent[2] == reset.sent[0];
  }
}
