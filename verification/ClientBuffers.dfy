/** Request buffers of all clients, and the two counters of the server's statistics that account for them. */
module ClientBuffers {
  import opened Wire
  import opened ClientReader
  import opened ClientRuns

  ghost function TotalCharge(readers: seq<Reader>): int
    reads readers
  {
    if readers == [] then 0
    else TotalCharge(readers[..|readers| - 1]) + readers[|readers| - 1].Charge()
  }

  ghost function TotalBuffers(readers: seq<Reader>): int
    reads readers
  {
    if readers == [] then 0
    else TotalBuffers(readers[..|readers| - 1]) + readers[|readers| - 1].Buffers()
  }

  twostate lemma {:induction false} AllKept(readers: seq<Reader>)
    requires forall i :: 0 <= i < |readers| ==>
      readers[i].Charge() == old(readers[i].Charge()) && readers[i].Buffers() == old(readers[i].Buffers())
    ensures TotalCharge(readers) == old(TotalCharge(readers)) && TotalBuffers(readers) == old(TotalBuffers(readers))
    decreases |readers|
  {
    if readers != [] {
      AllKept(readers[..|readers| - 1]);
    }
  }

  /** One reader makes the whole difference. */
  twostate lemma {:induction false} OthersKept(readers: seq<Reader>, new k: nat)
    requires k < |readers|
    requires forall i :: 0 <= i < |readers| && i != k ==>
      readers[i].Charge() == old(readers[i].Charge()) && readers[i].Buffers() == old(readers[i].Buffers())
    ensures TotalCharge(readers) - readers[k].Charge() == old(TotalCharge(readers) - readers[k].Charge())
    ensures TotalBuffers(readers) - readers[k].Buffers() == old(TotalBuffers(readers) - readers[k].Buffers())
    decreases |readers|
  {
    var front := readers[..|readers| - 1];
    if k < |front| {
      OthersKept(front, k);
    } else {
      AllKept(front);
    }
  }

  /** What all closed clients are charged. */
  lemma {:induction false} NothingCharged(readers: seq<Reader>)
    requires forall r :: r in readers ==> r.closed
    ensures TotalCharge(readers) == 0 && TotalBuffers(readers) == 0
    decreases |readers|
  {
    if readers != [] {
      NothingCharged(readers[..|readers| - 1]);
    }
  }

  class Clients {
    const stat: Stat
    const params: Params
    var readers: seq<Reader>

    /** No two clients share an object or a buffer. */
    ghost predicate Apart()
      reads this, readers
    {
      forall i, j :: 0 <= i < |readers| && 0 <= j < |readers| && i != j ==>
        && readers[i] != readers[j] && readers[i].base != readers[j].base
        && readers[i].base != readers[j].header && readers[i].header != readers[j].header
    }

    ghost function Arrays(): set<object>
      reads this, readers
    {
      set r | r in readers :: r.base
    }

    /** The counters are what is allocated, summed over the clients. */
    ghost predicate Valid()
      reads this, stat, readers, Arrays()
    {
      && Apart()
      && (forall i :: 0 <= i < |readers| ==> readers[i].Valid())
      && stat.memory == TotalCharge(readers) && stat.buffers == TotalBuffers(readers)
    }

    constructor (params: Params)
      ensures Valid() && readers == [] && fresh(stat)
    {
      this.params := params;
      stat := new Stat();
      readers := [];
    }

    method Connect() returns (client: Reader)
      requires Valid() && GoodParams(params)
      modifies this
      ensures Valid() && fresh(client) && readers == old(readers) + [client]
    {
      hide Reader.Valid, Reader.Charge, Reader.Buffers, Reader.Now;
      client := new Reader(params);
      ghost var was := readers;
      readers := readers + [client];
      assert readers[..|was|] == was;
      AllKept(was);
    }

    /** alloc_buffer for one of the clients. */
    method AllocBuffer(k: nat, enough: bool) returns (room: nat)
      requires Valid() && k < |readers| && !readers[k].closed
      requires var status := readers[k].Now().status; status.Reading? || status.Processing?
      modifies stat, readers[k]
      ensures Valid()
      ensures exists grows :: readers[k].events == old(readers[k].events) + [Poll(grows)]
      ensures readers[k].processing && !readers[k].stopped ==> room == 0
      ensures readers[k].stopped <==>
              old(readers[k].Now().status.Processing? && |readers[k].Now().b| < readers[k].Now().len)
    {
      hide Reader.Valid, Reader.Charge, Reader.Buffers, Run;
      readers[k].NowSound();
      ghost var grows;
      room, grows := readers[k].AllocBuffer(stat, enough);
      readers[k].NowSound();
      OthersKept(readers, k);
    }

    method OnRead(k: nat, chunk: Bytes, created: bool) returns (leave: bool)
      requires Valid() && k < |readers| && !readers[k].closed && 0 < |chunk| <= readers[k].Now().offered
      modifies readers[k], readers[k].base
      ensures Valid() && readers[k].events == old(readers[k].events) + [Read(chunk, created)]
      ensures leave <==> readers[k].Now().status.Leaving? || readers[k].Now().status.Invalid?
    {
      hide Reader.Valid, Reader.Charge, Reader.Buffers, Run;
      leave := readers[k].OnRead(chunk, created);
      OthersKept(readers, k);
    }

    /** Only the request under way switches the streaming mode, and no counter changes with it. */
    method SetStreamingMode(k: nat, on: bool)
      requires Valid() && k < |readers| && readers[k].processing && !readers[k].stopped
      modifies readers[k]
      ensures Valid() && readers[k].streaming == on && readers[k].events == old(readers[k].events)
    {
      hide Reader.Valid, Reader.Charge, Reader.Buffers;
      readers[k].SetStreamingMode(on);
      OthersKept(readers, k);
    }

    method FinishRequest(k: nat)
      requires Valid() && k < |readers| && !readers[k].closed && !readers[k].stopped && readers[k].processing
      modifies stat, readers[k]
      ensures Valid() && !readers[k].processing && readers[k].events == old(readers[k].events) + [Finish]
    {
      hide Reader.Valid, Reader.Charge, Reader.Buffers, Run;
      readers[k].FinishRequest(stat);
      OthersKept(readers, k);
    }

    method Close(k: nat)
      requires Valid() && k < |readers| && !readers[k].closed
      modifies stat, readers[k]
      ensures Valid() && readers[k].closed
    {
      hide Reader.Valid, Reader.Charge, Reader.Buffers;
      readers[k].Close(stat);
      OthersKept(readers, k);
    }

    /** When all clients have closed both counters are back to zero. */
    lemma AllClosed()
      requires Valid() && forall r :: r in readers ==> r.closed
      ensures stat.memory == 0 && stat.buffers == 0
    {
      NothingCharged(readers);
    }
  }
}
