/**
  Reading requests off a client's connection.  The buffer first holds ten header bytes, then grows
  to exactly one frame; in streaming mode the big buffer is kept from one request to the next.
  Every method is a step of the machine in ClientRuns; here are the buffers and what they cost.
*/
module ClientReader {
  import opened Wire
  import opened Wrappers
  import opened ClientRuns
  import Forwarding

  /** Counters of the server's statistics that all clients share. */
  class Stat {
    var memory: int
    var buffers: int

    constructor ()
      ensures memory == 0 && buffers == 0
    {
      memory, buffers := 0, 0;
    }
  }

  /** The part of a client object that on_read and alloc_buffer work on. */
  class Reader {
    const header: array<Byte>
    const params: Params
    var base: array<Byte>
    var len: nat
    var index: nat
    var sizeFound: nat
    var version: nat
    var streaming: bool
    var allocatedForStreaming: bool
    var processing: bool
    var closed: bool
    /** An assertion has failed, and with it the server has ended. */
    var stopped: bool
    ghost var events: seq<Event>

    /** What this client is charged for its request buffer. */
    ghost function Charge(): nat
      reads `closed, `base, `allocatedForStreaming, `version, `len
    {
      if closed || base == header then 0
      else if allocatedForStreaming then (if version in params then params[version] else 0) + HEADER_SIZE
      else len
    }

    ghost function Buffers(): nat
      reads `closed, `base
    {
      if closed || base == header then 0 else 1
    }

    /** What the client is charged is what is allocated. */
    ghost predicate Memory()
      reads `base, `index, `len, `version, `closed, `allocatedForStreaming
    {
      && header.Length == HEADER_SIZE + 1 <= base.Length && index <= len <= base.Length
      && (base != header ==> version in params && Charge() == (if closed then 0 else base.Length))
      && (base != header && !allocatedForStreaming ==> len == base.Length)
      && (base == header ==> !allocatedForStreaming)
    }

    /** Where everything that has happened to this client leads to. */
    ghost function Now(): State
      reads `events
    {
      Run(Start(), events, params)
    }

    /** The fields are that state, and a buffer of its own is there when a body needs it. */
    ghost predicate Matches(s: State)
      reads `stopped, `index, `base, `len, `sizeFound, `version, `processing, `streaming, `allocatedForStreaming, base
    {
      && stopped == s.status.Stopped?
      && (!stopped ==>
            && index <= base.Length && base[..index] == s.b
            && len == s.len && sizeFound == s.sizeFound && version == s.version
            && processing == s.status.Processing?)
      && (s.status.Reading? ==>
            && (base != header ==> len > HEADER_SIZE + 1 || (streaming && allocatedForStreaming))
            && (len > HEADER_SIZE + 1 ==> base != header))
    }

    ghost predicate Valid()
      reads this, base
    {
      && GoodParams(params) && Memory()
      && Feasible(Start(), events, params) && Matches(Now())
    }

    constructor (params: Params)
      requires GoodParams(params)
      ensures Valid() && events == [] && Now() == Start() && !closed && this.params == params
      ensures Charge() == 0 && Buffers() == 0 && base == header && fresh(header)
    {
      this.params := params;
      var h := new Byte[HEADER_SIZE + 1](_ => 0);
      header, base := h, h;
      len, index, sizeFound, version := HEADER_SIZE + 1, 0, 0, UNINITIALIZED_VERSION;
      streaming, allocatedForStreaming, processing, closed, stopped := false, false, false, false, false;
      events := [];
    }

    /** Every state that a reader can be in is sound. */
    lemma NowSound()
      requires Valid()
      ensures Sound(Now(), params) && (stopped <==> Now().status.Stopped?)
    {
      hide Sound, Run, Feasible;
      SoundStart(params);
      SoundRun(Start(), events, params);
    }

    /** SetStreamingMode, which only the request under way may call. */
    method SetStreamingMode(on: bool)
      requires Valid() && processing && !stopped
      modifies `streaming
      ensures Valid() && Charge() == old(Charge()) && Buffers() == old(Buffers())
      ensures streaming == on
    {
      streaming := on;
    }

    /** A new buffer for the frame, or for the largest one in streaming mode, with the header copied. */
    method Allocate(stat: Stat)
      requires Memory() && base == header && index == len == HEADER_SIZE + 1 && !closed
      requires GoodParams(params) && version in params && 1 < sizeFound <= params[version]
      modifies this`base, this`len, this`allocatedForStreaming, stat
      ensures Memory() && fresh(base) && len == sizeFound + HEADER_SIZE && base[..index] == old(base[..index])
      ensures allocatedForStreaming == streaming
      ensures stat.memory - Charge() == old(stat.memory - Charge())
      ensures stat.buffers - Buffers() == old(stat.buffers - Buffers())
    {
      var size := if streaming then params[version] + HEADER_SIZE else sizeFound + HEADER_SIZE;
      var b := new Byte[size](_ => 0);
      forall i | 0 <= i < HEADER_SIZE + 1 { b[i] := header[i]; }
      assert b[..index] == header[..index];
      base := b;
      len := sizeFound + HEADER_SIZE;
      stat.memory := stat.memory + size;
      stat.buffers := stat.buffers + 1;
      allocatedForStreaming := streaming;
    }

    /** The part of GetRequestBuffer that makes room for a whole frame. */
    method Grow(stat: Stat, enough: bool) returns (grown: bool)
      requires Valid() && !stopped && !closed && sizeFound > 0 && len <= index
      modifies this`base, this`len, this`sizeFound, this`allocatedForStreaming, stat
      ensures Memory() && Matches(Polled(Now(), grown)) && grown == (old(base) != header || enough)
      ensures stat.memory - Charge() == old(stat.memory - Charge())
      ensures stat.buffers - Buffers() == old(stat.buffers - Buffers())
      ensures grown ==> sizeFound == 0 && len == old(sizeFound) + HEADER_SIZE && index < len
      ensures !grown ==> sizeFound == old(sizeFound) && len == index
      ensures base == old(base) || fresh(base)
    {
      hide Run, Feasible, Polled;
      GrowRun(events, params);
      assert index == HEADER_SIZE + 1;
      if base == header {
        assert !allocatedForStreaming;
        if !enough {
          return false;
        }
        Allocate(stat);
      } else {
        assert streaming && allocatedForStreaming;
        len := sizeFound + HEADER_SIZE;
      }
      sizeFound := 0;
      return true;
    }

    /** GetRequestBuffer: how many bytes libuv may read; zero also means that memory ran short. */
    method GetRequestBuffer(stat: Stat, enough: bool) returns (room: nat, ghost grows: bool)
      requires Valid() && !closed && (Now().status.Reading? || Now().status.Processing?)
      modifies this`base, this`len, this`sizeFound, this`allocatedForStreaming, stat
      ensures Memory() && Matches(Polled(Now(), grows).(status := Now().status))
      ensures room == len - index && (enough ==> grows)
      ensures stat.memory - Charge() == old(stat.memory - Charge())
      ensures stat.buffers - Buffers() == old(stat.buffers - Buffers())
      ensures base == old(base) || fresh(base)
    {
      hide Run, Feasible;
      grows := enough;
      if len - index == 0 && sizeFound > 0 {
        grows := Grow(stat, enough);
      }
      room := len - index;
    }

    lemma RoomLeft(t: State, status: Status)
      requires Matches(t.(status := status)) && !status.Stopped?
      ensures !stopped && index == |t.b| && len == t.len && (processing <==> status.Processing?)
    {
    }

    lemma EndMatches(t: State)
      requires stopped && t.status.Stopped?
      ensures Matches(t)
    {
    }

    /** alloc_buffer: its assertion says that there is no room as long as a request is under way. */
    method AllocBuffer(stat: Stat, enough: bool) returns (room: nat, ghost grows: bool)
      requires Valid() && !closed && (Now().status.Reading? || Now().status.Processing?)
      modifies this`base, this`len, this`sizeFound, this`allocatedForStreaming, this`stopped, this`events, stat
      ensures Valid()
      ensures events == old(events) + [Poll(grows)] && (enough ==> grows)
      ensures Now() == Step(old(Now()), Poll(grows), params)
      ensures stat.memory - Charge() == old(stat.memory - Charge())
      ensures stat.buffers - Buffers() == old(stat.buffers - Buffers())
      ensures stopped <==> old(Now().status.Processing? && |Now().b| < Now().len)
      ensures !stopped ==> room == Now().offered && (processing ==> room == 0)
      ensures base == old(base) || fresh(base)
    {
      hide Run, Feasible, Polled, Step, Reader.Charge, Reader.Memory, Reader.Matches;
      ghost var s := Now();
      room, grows := GetRequestBuffer(stat, enough);
      PollRun(events, grows, params);
      RoomLeft(Polled(s, grows), s.status);
      if room > 0 && processing {
        stopped := true;
        EndMatches(Polled(s, grows));
      }
      events := events + [Poll(grows)];
    }

    /** libuv's own part of a read: the bytes go into the buffer. */
    method Fill(chunk: Bytes)
      requires Memory() && 0 < |chunk| <= len - index
      modifies this`index, base
      ensures index == old(index) + |chunk| && base[..index] == old(base[..index]) + chunk
    {
      var i := 0;
      while i < |chunk|
        invariant 0 <= i <= |chunk|
        invariant index == old(index) && base[..index + i] == old(base[..index]) + chunk[..i]
      {
        base[index + i] := chunk[i];
        i := i + 1;
      }
      index := index + |chunk|;
    }

    /** ValidateProtocolAndExtractRequest on the bytes read; it may settle the version, never change it. */
    method Judge() returns (verdict: Verdict)
      requires Memory() && GoodParams(params) && !closed
      modifies this`version
      ensures Memory() && (verdict, version) == Extract(base[..index], old(version), params)
    {
      ExtractSame(base[..index], version, params);
      hide Extract;
      verdict, version := ValidateProtocolAndExtractRequest(base[..index], version, params);
    }

    /**
      ExtractRequestOffTheBuffer: the buffer is looked at, and a complete request goes into processing.
      `created` says whether memory allows a request object; if not, the request is dropped, and the
      buffer is left as it is but for the index.  `leave` says that the client is disconnected.
    */
    method ExtractRequestOffTheBuffer(ghost chunk: Bytes, created: bool) returns (leave: bool)
      requires GoodParams(params) && Memory() && !closed && Feasible(Start(), events, params)
      requires 0 < |chunk| <= Now().offered && Matches(Now().(b := Now().b + chunk))
      modifies this`index, this`sizeFound, this`version, this`processing, this`stopped, this`events
      ensures Valid() && events == old(events) + [Read(chunk, created)]
      ensures Now() == Step(old(Now()), Read(chunk, created), params)
      ensures leave <==> Now().status.Leaving? || Now().status.Invalid?
    {
      ghost var s := Now();
      hide Run, Feasible, Sound, Step, Extract, PhaseOf;
      SoundStart(params);
      SoundRun(Start(), events, params);
      ReadCases(s, chunk, created, params);
      Snoc(Start(), events, Read(chunk, created), params);
      var verdict := Judge();
      leave := false;
      match verdict {
        case Found(payload) =>
          if created {
            assert !processing;
            processing := true;
          } else {
            index := 0;
            leave := version != Forwarding.SPECIAL_COMMUNICATION;
            assert base[..index] == [];
          }
        case Wait(size) =>
          if index == HEADER_SIZE + 1 {
            if len != HEADER_SIZE + 1 {
              stopped := true;
            } else {
              assert allocatedForStreaming || base == header;
              sizeFound := size;
            }
          } else if index > HEADER_SIZE + 1 {
            assert base != header;
            if len != size + HEADER_SIZE {
              stopped := true;
            }
          } else if len != HEADER_SIZE + 1 {
            stopped := true;
          }
        case _ =>
          index := 0;
          leave := true;
          assert base[..index] == [];
      }
      events := events + [Read(chunk, created)];
    }

    /**
      on_read: the client is disconnected for an invalid header, and for want of memory unless it is a peer
      server.
    */
    method OnRead(chunk: Bytes, created: bool) returns (leave: bool)
      requires Valid() && !closed && 0 < |chunk| <= Now().offered
      modifies this`index, this`sizeFound, this`version, this`processing, this`stopped, this`events, base
      ensures Valid() && events == old(events) + [Read(chunk, created)]
      ensures Now() == Step(old(Now()), Read(chunk, created), params)
      ensures var verdict := Extract(old(Now().b) + chunk, old(version), params).0;
        && Now().lost == old(Now().lost) + (if verdict.Found? && !created then [verdict.payload] else [])
        && (leave <==> !verdict.Wait? && (verdict.Found? ==> !created && version != Forwarding.SPECIAL_COMMUNICATION))
      ensures leave <==> Now().status.Leaving? || Now().status.Invalid?
      ensures Charge() == old(Charge()) && Buffers() == old(Buffers())
      ensures !old(processing)
    {
      NowSound();
      hide Run, Feasible, Step, Extract, PhaseOf;
      ReadCases(Now(), chunk, created, params);
      Fill(chunk);
      leave := ExtractRequestOffTheBuffer(chunk, created);
    }

    /** The end of after_request_processing_thread: ResetRequestBuffer, and the client may send again. */
    method FinishRequest(stat: Stat)
      requires Valid() && !closed && !stopped && processing
      modifies this`base, this`len, this`index, this`allocatedForStreaming, this`processing, this`events, stat
      ensures Valid() && !processing && index == 0 && len == HEADER_SIZE + 1
      ensures events == old(events) + [Finish] && Now() == Step(old(Now()), Finish, params)
      ensures stat.memory - Charge() == old(stat.memory - Charge())
      ensures stat.buffers - Buffers() == old(stat.buffers - Buffers())
      ensures base == if streaming && old(allocatedForStreaming) then old(base) else header
    {
      Snoc(Start(), events, Finish, params);
      hide Extract, Run, Feasible, Weight, PhaseOf;
      if base != header && (!streaming || !allocatedForStreaming) {
        stat.memory := stat.memory - (if allocatedForStreaming then params[version] + HEADER_SIZE else len);
        stat.buffers := stat.buffers - 1;
        base := header;
        allocatedForStreaming := false;
      }
      len := HEADER_SIZE + 1;
      index := 0;
      processing := false;
      events := events + [Finish];
      assert base[..index] == [];
    }

    /** The buffer's part of on_client_closed. */
    method Close(stat: Stat)
      requires Valid() && !closed
      modifies this`closed, stat
      ensures Valid() && closed && Charge() == 0 && Buffers() == 0
      ensures stat.memory == old(stat.memory - Charge()) && stat.buffers == old(stat.buffers - Buffers())
    {
      if base != header {
        stat.memory := stat.memory - (if allocatedForStreaming then params[version] + HEADER_SIZE else len);
        stat.buffers := stat.buffers - 1;
      }
      closed := true;
    }

    /**
      Whatever the cuts: if all that came is a sequence of valid frames, all of them have been taken off
      the buffer as long as no longer request was dropped, and the requests created are their payloads
      exactly if none was dropped.
    */
    lemma ReadsFrames(v: nat, payloads: seq<Bytes>)
      requires Valid() && Now().consumed == Frames(v, payloads)
      requires forall i :: 0 <= i < |payloads| ==> Allowed(params, v, payloads[i])
      ensures SmallLosses(Now()) ==> !stopped && Now().taken == payloads && (processing || index == 0)
      ensures Now().found == payloads <==> Now().lost == []
    {
      var s := Now();
      NowSound();
      WeightFrames(v, payloads);
      assert Frames(v, payloads) + [] == Frames(v, payloads);
      assert Extract([], if payloads == [] then UNINITIALIZED_VERSION else v, params).0.Wait?;
      SplitFrames(v, payloads, [], UNINITIALIZED_VERSION, params);
      hide Split, Run, Feasible, Extract, PhaseOf;
      if SmallLosses(s) {
        SmallLossesInStep(events, params);
      }
    }

    /** In the middle of a frame all earlier ones have been taken, and nothing of a later one has. */
    lemma ReadsPart(v: nat, payloads: seq<Bytes>, k: nat, n: nat)
      requires Valid() && SmallLosses(Now()) && k < |payloads| && n < HEADER_SIZE + |payloads[k]|
      requires forall i :: 0 <= i < |payloads| ==> Allowed(params, v, payloads[i])
      requires Now().consumed == Frames(v, payloads[..k]) + Frame(v, payloads[k])[..n]
      ensures !stopped && Now().taken == payloads[..k]
      ensures (if processing then [] else base[..index]) == Frame(v, payloads[k])[..n]
    {
      var part := Frame(v, payloads[k])[..n];
      ExtractPart(v, payloads[k], n, if payloads[..k] == [] then UNINITIALIZED_VERSION else v, params);
      SplitFrames(v, payloads[..k], part, UNINITIALIZED_VERSION, params);
      NowSound();
      SmallLossesInStep(events, params);
      hide Split, Run, Feasible, Extract, PhaseOf;
    }
  }

  /** Through the reader itself: on a peer server's connection the request p is dropped. */
  method DropOne(p: Bytes, params: Params, stat: Stat) returns (reader: Reader)
    requires GoodParams(params) && Allowed(params, Forwarding.SPECIAL_COMMUNICATION, p) && |p| > 1
    modifies stat
    ensures fresh(reader) && fresh(reader.base) && reader.Valid() && reader.params == params && !reader.closed
    ensures var s := reader.Now();
      && Stale(s) && s.len == HEADER_SIZE + |p| && s.version == Forwarding.SPECIAL_COMMUNICATION
      && s.taken == [p] && s.lost == [p] && s.found == []
  {
    hide Run, Feasible, Frame, Step, Reader.Valid, Reader.Charge, Reader.Buffers;
    var f := Frame(Forwarding.SPECIAL_COMMUNICATION, p);
    DropRun(p, params);
    reader := new Reader(params);
    var room, leave;
    ghost var grows;
    room, grows := reader.AllocBuffer(stat, true);
    leave := reader.OnRead(f[..HEADER_SIZE + 1], true);
    room, grows := reader.AllocBuffer(stat, true);
    leave := reader.OnRead(f[HEADER_SIZE + 1..], false);
  }

  /** Then a shorter one comes, and the next poll ends the server. */
  method OvertakenByShorter(p: Bytes, q: Bytes, params: Params, stat: Stat) returns (reader: Reader)
    requires GoodParams(params) && Allowed(params, Forwarding.SPECIAL_COMMUNICATION, p)
    requires 0 < |q| < |p|
    modifies stat
    ensures fresh(reader) && reader.Valid() && reader.stopped
    ensures reader.Now().lost == [p] && reader.Now().found == [q] && reader.Now().taken == [p, q]
  {
    hide Run, Feasible, Frame, Step, Sound, Reader.Valid, Reader.Charge, Reader.Buffers;
    reader := DropOne(p, params, stat);
    reader.NowSound();
    ShorterFrameStops(reader.Now(), q, params);
    var room, leave;
    ghost var grows;
    room, grows := reader.AllocBuffer(stat, true);
    leave := reader.OnRead(Frame(Forwarding.SPECIAL_COMMUNICATION, q), true);
    room, grows := reader.AllocBuffer(stat, true);
    reader.NowSound();
  }
}
