/** Posting a batch over a lossy link (transport.cpp): chunks of three, one
    retry each after a transport failure, success only if every chunk was
    answered with 201. */
module Transport {
  import opened FixRecordCodec
  import opened Sequences

  const BATCH_MAX_ITEMS: nat := 20
  const SUB_BATCH_ITEMS: nat := 3
  const BATCH_PAYLOAD_CAPACITY: nat := 20

  datatype TransportResult =
    SENT | TRANSPORT_ERROR | TIMEOUT | HTTP_CLIENT_ERROR | HTTP_SERVER_ERROR | CONFIG_ERROR

  /** What one exchange met: a usable host, a connection, a complete write, the
      HTTP status (0 or less when none could be read), and whether the modem got
      its network back afterwards, should a retry need it. */
  datatype Exchange = Exchange(hostOk: bool, connected: bool, written: bool, code: int, reattached: bool)

  /** The request went out whole and status 201 came back. */
  predicate Created(x: Exchange) {
    x.hostOk && x.connected && x.written && x.code == 201
  }

  type Body = seq<FixRecord>
  datatype Attempt = Attempt(body: Body, met: Exchange, result: TransportResult)

  /** What the discipline of posting turns on: 201, and no answer at all. */
  predicate Truthful(a: Attempt) {
    && (a.result == SENT <==> Created(a.met))
    && (a.result == TRANSPORT_ERROR <==> a.met.hostOk && !(a.met.connected && a.met.written && a.met.code > 0))
  }

  const NO_NETWORK: Exchange := Exchange(true, false, false, 0, false)

  /** The link plays back one exchange per post; `log` is what was posted. */
  class Link {
    var script: seq<Exchange>
    ghost var log: seq<Attempt>

    constructor (script: seq<Exchange>)
      ensures this.script == script && log == []
    {
      this.script := script;
      log := [];
    }

    method PostOnce(body: Body) returns (result: TransportResult, x: Exchange)
      modifies this
      ensures log == old(log) + [Attempt(body, x, result)]
      ensures x == (if old(script) == [] then NO_NETWORK else old(script)[0])
      ensures script == if old(script) == [] then [] else old(script)[1..]
      ensures result == SENT <==> x.hostOk && x.connected && x.written && x.code == 201
      ensures result == HTTP_SERVER_ERROR <==> x.hostOk && x.connected && x.written && x.code >= 500
      ensures result == HTTP_CLIENT_ERROR <==> x.hostOk && x.connected && x.written && 0 < x.code < 500 && x.code != 201
      ensures result == TRANSPORT_ERROR <==> x.hostOk && (!x.connected || !x.written || x.code <= 0)
      ensures result == CONFIG_ERROR <==> !x.hostOk
    {
      x := if script == [] then NO_NETWORK else script[0];
      script := if script == [] then [] else script[1..];
      if !x.hostOk {
        result := CONFIG_ERROR;
      } else if !x.connected {
        result := TRANSPORT_ERROR;
      } else if !x.written {
        result := TRANSPORT_ERROR;
      } else if x.code <= 0 {
        result := TRANSPORT_ERROR;
      } else if x.code == 201 {
        result := SENT;
      } else {
        result := if x.code >= 500 then HTTP_SERVER_ERROR else HTTP_CLIENT_ERROR;
      }
      log := log + [Attempt(body, x, result)];
    }
  }

  function ChunkSize(remaining: nat): nat {
    if SUB_BATCH_ITEMS < remaining then SUB_BATCH_ITEMS else remaining
  }

  function Chunks(rs: seq<FixRecord>): seq<Body> {
    if rs == [] then [] else [rs[..ChunkSize(|rs|)]] + Chunks(rs[ChunkSize(|rs|)..])
  }

  lemma NextChunk(rs: seq<FixRecord>, offset: nat)
    requires offset < |rs|
    ensures var chunk := ChunkSize(|rs| - offset);
      Chunks(rs[offset..]) == [rs[offset..offset + chunk]] + Chunks(rs[offset + chunk..])
  {
    var remaining, chunk := rs[offset..], ChunkSize(|rs| - offset);
    assert remaining[..chunk] == rs[offset..offset + chunk] && remaining[chunk..] == rs[offset + chunk..];
  }

  /** The posting discipline, chunk by chunk: a chunk whose body fits is posted
      once, and once more exactly if that met a transport error and the network
      came back; the next chunk follows only a 201. */
  predicate Disciplined(fits: Body -> bool, chunks: seq<Body>, log: seq<Attempt>, result: TransportResult)
    decreases |chunks|
  {
    if chunks == [] then log == [] && result == SENT
    else if !fits(chunks[0]) then log == [] && result == CONFIG_ERROR
    else
      && log != [] && log[0].body == chunks[0] && Truthful(log[0])
      && if log[0].result == SENT then Disciplined(fits, chunks[1..], log[1..], result)
         else if log[0].result != TRANSPORT_ERROR || !log[0].met.reattached then |log| == 1 && result == log[0].result
         else
           && |log| > 1 && log[1].body == chunks[0] && Truthful(log[1])
           && if log[1].result == SENT then Disciplined(fits, chunks[1..], log[2..], result)
              else |log| == 2 && result == log[1].result
  }

  /** The attempts one chunk may take, and their result. */
  predicate Attempts(body: Body, now: seq<Attempt>, result: TransportResult) {
    && 1 <= |now| <= 2 && (forall a :: a in now ==> a.body == body && Truthful(a)) && now[|now| - 1].result == result
    && (|now| == 2 <==> now[0].result == TRANSPORT_ERROR && now[0].met.reattached)
  }

  method PostWithRetry(link: Link, body: Body) returns (result: TransportResult, ghost now: seq<Attempt>)
    modifies link
    ensures link.log == old(link.log) + now && Attempts(body, now, result)
  {
    var met;
    result, met := link.PostOnce(body);
    now := [Attempt(body, met, result)];
    if result != SENT {
      if result != TRANSPORT_ERROR {
        return;
      }
      if !met.reattached {
        return;
      }
      result, met := link.PostOnce(body);
      now := now + [Attempt(body, met, result)];
    }
  }

  /** `urlOk` and `fits` say whether the URL and the JSON body fit their buffers. */
  method TransportPostBatch(records: array?<FixRecord>, count: nat, link: Link, urlOk: bool, fits: Body -> bool)
    returns (result: TransportResult)
    requires records != null ==> count <= records.Length
    modifies link
    ensures old(link.log) <= link.log
    ensures records == null || count == 0 || count > BATCH_PAYLOAD_CAPACITY || !urlOk ==>
      result == CONFIG_ERROR && link.log == old(link.log)
    ensures records != null && 0 < count <= BATCH_PAYLOAD_CAPACITY && urlOk ==>
      Disciplined(fits, Chunks(records[..count]), link.log[|old(link.log)|..], result)
  {
    if records == null || count == 0 || count > BATCH_PAYLOAD_CAPACITY {
      return CONFIG_ERROR;
    }
    if !urlOk {
      return CONFIG_ERROR;
    }
    result := PostChunks(records[..count], link, fits);
  }

  /** The loop over the chunks. */
  method PostChunks(payloads: seq<FixRecord>, link: Link, fits: Body -> bool) returns (result: TransportResult)
    modifies link
    ensures old(link.log) <= link.log
    ensures Disciplined(fits, Chunks(payloads), link.log[|old(link.log)|..], result)
  {
    hide Leads;
    hide Disciplined;
    hide Chunks;
    hide Attempts;
    ghost var before, log := link.log, [];
    ghost var chunks := Chunks(payloads);
    var offset, count := 0, |payloads|;
    LeadsEmpty(fits, chunks);
    assert payloads[0..] == payloads;
    while offset < count
      invariant 0 <= offset <= count
      invariant link.log == before + log
      invariant Leads(fits, chunks, log, Chunks(payloads[offset..]))
    {
      var chunk := ChunkSize(count - offset);
      var body := payloads[offset..offset + chunk];
      ghost var rest := Chunks(payloads[offset + chunk..]);
      NextChunk(payloads, offset);
      if !fits(body) {
        EndsWith(fits, chunks, log, [body] + rest, [], CONFIG_ERROR);
        assert link.log == before + (log + []);
        return CONFIG_ERROR;
      }
      ghost var now;
      result, now := PostWithRetry(link, body);
      assert link.log == before + (log + now);
      if result != SENT {
        EndsWith(fits, chunks, log, [body] + rest, now, result);
        return result;
      }
      LeadsOn(fits, chunks, log, body, rest, now);
      log := log + now;
      offset := offset + chunk;
    }
    NoChunks();
    assert payloads[offset..] == [];
    EndsWith(fits, chunks, log, [], [], SENT);
    assert log + [] == log;
    return SENT;
  }

  lemma NoChunks()
    ensures Chunks([]) == []
  {
  }

  /** Having posted `log`, what remains of `chunks` is `rest`. */
  ghost predicate Leads(fits: Body -> bool, chunks: seq<Body>, log: seq<Attempt>, rest: seq<Body>) {
    forall more, r :: Disciplined(fits, rest, more, r) ==> Disciplined(fits, chunks, log + more, r)
  }

  lemma LeadsEmpty(fits: Body -> bool, chunks: seq<Body>)
    ensures Leads(fits, chunks, [], chunks)
  {
    assert forall more: seq<Attempt> :: [] + more == more;
  }

  /** The ways a drain may end at this chunk. */
  lemma EndsWith(fits: Body -> bool, chunks: seq<Body>, log: seq<Attempt>, rest: seq<Body>, more: seq<Attempt>, result: TransportResult)
    requires Leads(fits, chunks, log, rest)
    requires
      || (rest == [] && more == [] && result == SENT)
      || (rest != [] && !fits(rest[0]) && more == [] && result == CONFIG_ERROR)
      || (rest != [] && fits(rest[0]) && Attempts(rest[0], more, result) && result != SENT)
    ensures Disciplined(fits, chunks, log + more, result)
  {
    assert Disciplined(fits, rest, more, result);
  }

  lemma LeadsOn(fits: Body -> bool, chunks: seq<Body>, log: seq<Attempt>, body: Body, rest: seq<Body>, now: seq<Attempt>)
    requires Leads(fits, chunks, log, [body] + rest)
    requires fits(body) && Attempts(body, now, SENT)
    ensures Leads(fits, chunks, log + now, rest)
  {
    forall more, r | Disciplined(fits, rest, more, r)
      ensures Disciplined(fits, chunks, log + now + more, r)
    {
      assert (now + more)[|now|..] == more && ([body] + rest)[1..] == rest;
      assert Disciplined(fits, [body] + rest, now + more, r);
      assert log + (now + more) == log + now + more;
    }
  }

  /** The bodies that were answered with 201. */
  function Confirmed(log: seq<Attempt>): seq<Body> {
    if log == [] then []
    else (if Created(log[0].met) then [log[0].body] else []) + Confirmed(log[1..])
  }

  lemma {:induction false} FlattenChunks(rs: seq<FixRecord>)
    ensures Flatten(Chunks(rs)) == rs
    ensures forall c :: c in Chunks(rs) ==> 0 < |c| <= 3
    ensures 3 * |Chunks(rs)| < |rs| + 3
  {
    if rs != [] {
      FlattenChunks(rs[ChunkSize(|rs|)..]);
    }
  }

  lemma ConfirmedFirst(log: seq<Attempt>)
    requires log != []
    ensures Confirmed(log) == (if Created(log[0].met) then [log[0].body] else []) + Confirmed(log[1..])
    ensures !Created(log[0].met) ==> Confirmed(log) == Confirmed(log[1..])
  {
  }

  /** A confirmed body went out whole in some attempt that met status 201, and
      no other is. */
  lemma {:induction false} ConfirmedWereCreated(log: seq<Attempt>, body: Body)
    ensures body in Confirmed(log) <==>
      exists a :: a in log && a.body == body && a.met.hostOk && a.met.connected && a.met.written && a.met.code == 201
  {
    if log != [] {
      ConfirmedWereCreated(log[1..], body);
      assert forall a :: a in log <==> a == log[0] || a in log[1..];
    }
  }

  /** This record was in a body that met status 201. */
  predicate Delivered(log: seq<Attempt>, r: FixRecord) {
    exists a :: a in log && r in a.body && a.met.hostOk && a.met.connected && a.met.written && a.met.code == 201
  }

  lemma {:induction false} ConfirmedDelivered(log: seq<Attempt>, r: FixRecord)
    ensures r in Flatten(Confirmed(log)) <==> Delivered(log, r)
  {
    if log != [] {
      ConfirmedDelivered(log[1..], r);
      ConfirmedFirst(log);
      FlattenFirst(log[0].body, Confirmed(log[1..]));
      assert forall a :: a in log <==> a == log[0] || a in log[1..];
    }
  }

  lemma FlattenFirst(body: Body, rest: seq<Body>)
    ensures Flatten([body] + rest) == body + Flatten(rest)
  {
    assert ([body] + rest)[1..] == rest;
  }

  lemma ConfirmedNone()
    ensures Confirmed([]) == []
  {
  }

  /** A confirmed first chunk carries the claim over from the rest. */
  lemma OneMoreConfirmed(body: Body, confirmed: seq<Body>, rest: seq<Body>)
    ensures [body] + confirmed <= [body] + rest <==> confirmed <= rest
    ensures [body] + confirmed == [body] + rest <==> confirmed == rest
  {
    var x, y := [body] + confirmed, [body] + rest;
    assert x[1..] == confirmed && y[1..] == rest;
    if confirmed <= rest {
      assert rest == confirmed + rest[|confirmed|..];
      assert y == x + rest[|confirmed|..];
    }
    if x <= y {
      assert y == x + y[|x|..];
      assert rest == confirmed + y[|x|..];
    }
  }

  /** SENT is returned exactly when every chunk was confirmed; what was confirmed
      is always a run of chunks from the front, and no chunk is posted more than
      twice. */
  lemma {:induction false} SentMeansAllConfirmed(fits: Body -> bool, chunks: seq<Body>, log: seq<Attempt>, result: TransportResult)
    requires Disciplined(fits, chunks, log, result)
    ensures |log| <= 2 * |chunks|
    ensures Confirmed(log) <= chunks
    ensures result == SENT <==> Confirmed(log) == chunks
    decreases |chunks|
  {
    hide Confirmed;
    ConfirmedNone();
    if chunks != [] && log != [] {
      assert chunks == [chunks[0]] + chunks[1..];
      ConfirmedFirst(log);
      if log[0].result == SENT {
        SentMeansAllConfirmed(fits, chunks[1..], log[1..], result);
        OneMoreConfirmed(chunks[0], Confirmed(log[1..]), chunks[1..]);
      } else if |log| > 1 {
        ConfirmedFirst(log[1..]);
        assert log[1..][1..] == log[2..];
        if log[1].result == SENT {
          SentMeansAllConfirmed(fits, chunks[1..], log[2..], result);
          OneMoreConfirmed(chunks[0], Confirmed(log[2..]), chunks[1..]);
        } else {
          assert log[2..] == [];
        }
      } else {
        assert log[1..] == [];
      }
    }
  }
}
