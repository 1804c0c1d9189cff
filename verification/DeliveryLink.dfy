/** The drains of the transport layer are runs of the delivery machine: what
    transportPostBatch may do with a peeked batch, post by post, is a sequence of
    Post, Serve and Confirm actions. */
module DeliveryLink {
  import opened Wire
  import opened FixRecordCodec
  import opened FixStore
  import opened Sequences
  import opened Transport
  import opened Ingest
  import opened Delivery

  /** The actions of one attempt: its request goes out, and a 201 means that it was
      served and that the answer arrived.  Anything else leaves the request
      under way: the backend may serve it later, or never. */
  function Exchange(q: Body -> Request, a: Attempt): seq<Action> {
    if a.met.hostOk && a.met.connected && a.met.written && a.met.code == 201
    then [Post(q(a.body))] + [Serve(q(a.body), true)] + [Confirm(q(a.body))]
    else [Post(q(a.body))]
  }

  function Played(q: Body -> Request, log: seq<Attempt>): seq<Action> {
    if log == [] then [] else Exchange(q, log[0]) + Played(q, log[1..])
  }

  /** The requests are made from the bodies. */
  predicate Encodes(env: Env, q: Body -> Request, bodies: seq<Body>) {
    forall i :: 0 <= i < |bodies| ==> Carries(env, q(bodies[i]), bodies[i])
  }

  lemma PostRun(env: Env, w: World, run: seq<Action>, q: Request)
    requires After(env, w, run).Some? && Enabled(env, After(env, w, run).value, Post(q))
    ensures var v := After(env, w, run).value;
      After(env, w, run + [Post(q)]) == Some(v.(inFlight := v.inFlight + {q}))
  {
    hide After;
    hide Enabled;
    Next(env, w, run, Post(q));
  }

  /** What the chunk loop has still to post. */
  function Rest(d: Drain): seq<FixRecord>
    requires d.done <= |d.batch|
  {
    d.batch[d.done..]
  }

  lemma ChunkFirst(d: Drain)
    requires d.done <= |d.batch|
    ensures Chunks(Rest(d)) == [] <==> d.done == |d.batch|
    ensures d.done < |d.batch| ==>
      && Chunks(Rest(d))[0] == Chunk(d) && |Chunk(d)| > 0 && d.done + |Chunk(d)| <= |d.batch|
      && Chunks(Rest(d))[1..] == Chunks(Rest(d.(done := d.done + |Chunk(d)|)))
  {
    if d.done < |d.batch| {
      NextChunk(d.batch, d.done);
    }
  }

  /** Whether this world may acknowledge its batch. */
  ghost predicate MayAcknowledge(env: Env, w: World) {
    exists io, cut :: Enabled(env, w, Acknowledge(io, cut))
  }

  lemma AcknowledgeIff(env: Env, w: World)
    requires w.ram.Some? && w.drain.Some?
    ensures MayAcknowledge(env, w) <==> w.drain.value.done == |w.drain.value.batch|
  {
    if w.drain.value.done == |w.drain.value.batch| {
      assert Enabled(env, w, Acknowledge(NotOpened, false));
    }
  }

  /** One attempt at the chunk whose turn it is. */
  lemma AttemptRun(env: Env, w: World, run: seq<Action>, q: Body -> Request, a: Attempt)
    requires After(env, w, run).Some?
    requires var v := After(env, w, run).value;
      && v.drain.Some? && v.drain.value.done < |v.drain.value.batch|
      && a.body == Chunk(v.drain.value) && Carries(env, q(a.body), a.body) && Truthful(a)
    ensures After(env, w, run + Exchange(q, a)).Some?
    ensures var v, v' := After(env, w, run).value, After(env, w, run + Exchange(q, a)).value;
      && v'.flash == v.flash && v'.ram == v.ram
      && v'.drain == Some(v.drain.value.(done := v.drain.value.done + if a.result == SENT then |a.body| else 0))
  {
    hide After;
    hide InsertAll;
    hide Accepted;
    hide Reports;
    var r := q(a.body);
    if a.result == SENT {
      ExchangeRun(env, w, run, r);
      assert run + Exchange(q, a) == run + [Post(r)] + [Serve(r, true)] + [Confirm(r)];
    } else {
      PostRun(env, w, run, r);
    }
  }

  lemma PlayedFirst(q: Body -> Request, run: seq<Action>, log: seq<Attempt>)
    requires log != []
    ensures run + Played(q, log) == run + Exchange(q, log[0]) + Played(q, log[1..])
  {
    hide Exchange;
    Associates(run, Exchange(q, log[0]), Played(q, log[1..]));
  }

  /** Every posting discipline over the chunks of the batch is a run; it leaves the
      device as it was but for the drain, and at its end the batch may be
      acknowledged if and only if the result is SENT. */
  lemma {:induction false} DisciplinedIsRun(env: Env, w: World, run: seq<Action>, q: Body -> Request, fits: Body -> bool,
                                            log: seq<Attempt>, result: TransportResult)
    requires After(env, w, run).Some?
    requires var v := After(env, w, run).value;
      && v.ram.Some? && v.drain.Some? && v.drain.value.done <= |v.drain.value.batch|
      && Disciplined(fits, Chunks(Rest(v.drain.value)), log, result)
      && Encodes(env, q, Chunks(Rest(v.drain.value)))
    ensures After(env, w, run + Played(q, log)).Some?
    ensures var v, v' := After(env, w, run).value, After(env, w, run + Played(q, log)).value;
      && v'.flash == v.flash && v'.ram == v.ram && v'.drain.Some? && v'.drain.value.batch == v.drain.value.batch
      && (MayAcknowledge(env, v') <==> result == SENT)
    decreases |log|
  {
    hide After;
    hide MayAcknowledge;
    hide Carries;
    hide Chunks;
    hide Exchange;
    hide Played;
    var v := After(env, w, run).value;
    var d := v.drain.value;
    ChunkFirst(d);
    AcknowledgeIff(env, v);
    NothingPlayed(q);
    if log == [] {
      assert run + [] == run;
    } else {
      AttemptRun(env, w, run, q, log[0]);
      PlayedFirst(q, run, log);
      var run1 := run + Exchange(q, log[0]);
      if log[0].result == SENT {
        DisciplinedIsRun(env, w, run1, q, fits, log[1..], result);
      } else if |log| == 1 {
        assert log[1..] == [] && run1 + [] == run1;
        AcknowledgeIff(env, After(env, w, run1).value);
      } else {
        AttemptRun(env, w, run1, q, log[1]);
        PlayedFirst(q, run1, log[1..]);
        assert log[1..][1..] == log[2..];
        var run2 := run1 + Exchange(q, log[1]);
        if log[1].result == SENT {
          DisciplinedIsRun(env, w, run2, q, fits, log[2..], result);
        } else {
          assert log[2..] == [] && run2 + [] == run2;
          AcknowledgeIff(env, After(env, w, run2).value);
        }
      }
    }
  }

  lemma NothingPlayed(q: Body -> Request)
    ensures Played(q, []) == []
  {
  }
}
