/** Streaming a snapshot in chunks and putting it back together
    (pkg/raft/raft.go:1357-1376, 1429-1485, 3370-3404). */
module SnapshotTransfer {
  import opened LogTypes

  const MAX_REASSEMBLED: nat := 0x4000_0000

  type Payload = seq<byte>

  /** One InstallSnapshot request, as far as reassembly looks at it. */
  datatype Chunk = Chunk(index: nat, offset: nat, data: Payload, done: bool)

  datatype Reassembly = Reassembly(index: nat, buf: Payload)

  datatype Outcome = Waiting | Dropped | TooBig | Complete(index: nat, data: Payload)

  const NOTHING := Reassembly(0, [])

  function Accumulated(s: Reassembly, c: Chunk): Option<Payload> {
    if c.offset == 0 then Some(c.data)
    else if s.index == c.index && c.offset == |s.buf| then Some(s.buf + c.data)
    else None
  }

  function Received(s: Reassembly, c: Chunk): (Reassembly, Outcome) {
    match Accumulated(s, c)
    case None => (NOTHING, Dropped)
    case Some(buf) =>
      if |buf| > MAX_REASSEMBLED then (NOTHING, TooBig)
      else if c.done then (NOTHING, Complete(c.index, buf))
      else (Reassembly(c.index, buf), Waiting)
  }

  /** The receiver's snapReasm field and the chunk handling of handleInstallSnapshot. */
  class Receiver {
    var index: nat
    var buf: Payload

    ghost function Value(): Reassembly
      reads this
    {
      Reassembly(index, buf)
    }

    constructor ()
      ensures Value() == NOTHING
    {
      index, buf := 0, [];
    }

    method Reset()
      modifies this
      ensures Value() == NOTHING
    {
      index := 0;
      buf := [];
    }

    method Receive(c: Chunk) returns (outcome: Outcome)
      modifies this
      ensures (Value(), outcome) == Received(old(Value()), c)
    {
      if c.offset == 0 {
        index := c.index;
        buf := c.data;
      } else if index == c.index && c.offset == |buf| {
        buf := buf + c.data;
      } else {
        Reset();
        return Dropped;
      }
      if |buf| > MAX_REASSEMBLED {
        Reset();
        return TooBig;
      }
      if c.done {
        var full := buf;
        Reset();
        return Complete(c.index, full);
      }
      return Waiting;
    }
  }

  // ---------------------------------------------------------------------------
  // Sending

  function Total(sizes: seq<nat>): nat {
    if sizes == [] then 0 else sizes[0] + Total(sizes[1..])
  }

  /** The reads of one transfer: any sizes that add up to the payload, the last one at its end. */
  predicate Reads(payload: Payload, offset: nat, sizes: seq<nat>) {
    sizes != [] && offset + Total(sizes) == |payload|
  }

  /** The chunks sent from offset on. */
  function Chunks(index: nat, payload: Payload, offset: nat, sizes: seq<nat>): (cs: seq<Chunk>)
    requires Reads(payload, offset, sizes)
    ensures |cs| == |sizes|
    decreases |sizes|
  {
    var c := Chunk(index, offset, payload[offset..offset + sizes[0]], |sizes| == 1);
    if |sizes| == 1 then [c] else [c] + Chunks(index, payload, offset + sizes[0], sizes[1..])
  }

  /** A chunk some sender of this payload may have produced. */
  predicate Genuine(payload: Payload, c: Chunk) {
    && c.offset + |c.data| <= |payload| && c.data == payload[c.offset..c.offset + |c.data|]
    && (c.done ==> c.offset + |c.data| == |payload|)
  }

  /** Everything a sender produces is genuine, so the guarantee below is about its chunks. */
  lemma {:induction false} ChunksAreGenuine(index: nat, payload: Payload, offset: nat, sizes: seq<nat>, k: nat)
    requires Reads(payload, offset, sizes) && k < |sizes|
    ensures var c := Chunks(index, payload, offset, sizes)[k];
            c.index == index && Genuine(payload, c)
    decreases |sizes|
  {
    assert |sizes| == 1 ==> Total(sizes[1..]) == 0;
    if k > 0 {
      ChunksAreGenuine(index, payload, offset + sizes[0], sizes[1..], k - 1);
    }
  }

  // ---------------------------------------------------------------------------
  // Any loss, duplication and reordering

  function After(s: Reassembly, arrivals: seq<Chunk>): Reassembly
    decreases |arrivals|
  {
    if arrivals == [] then s else After(Received(s, arrivals[0]).0, arrivals[1..])
  }

  function Outcomes(s: Reassembly, arrivals: seq<Chunk>): (os: seq<Outcome>)
    ensures |os| == |arrivals|
    decreases |arrivals|
  {
    if arrivals == [] then []
    else
      var (s', o) := Received(s, arrivals[0]);
      [o] + Outcomes(s', arrivals[1..])
  }

  /** There is one payload per snapshot index, and every arrival is a chunk of its own. */
  ghost predicate AllGenuine(payloads: map<nat, Payload>, arrivals: seq<Chunk>) {
    forall c :: c in arrivals ==> c.index in payloads && Genuine(payloads[c.index], c)
  }

  ghost predicate HoldsPrefix(payloads: map<nat, Payload>, s: Reassembly) {
    s == NOTHING || (s.index in payloads && s.buf <= payloads[s.index])
  }

  lemma StepKeepsPrefix(payloads: map<nat, Payload>, s: Reassembly, c: Chunk)
    requires HoldsPrefix(payloads, s) && c.index in payloads && Genuine(payloads[c.index], c)
    ensures var (s', o) := Received(s, c);
            HoldsPrefix(payloads, s') && (o.Complete? ==> o.index == c.index && o.index in payloads && o.data == payloads[o.index])
  {
    var p := payloads[c.index];
    assert p[..c.offset + |c.data|] == p[..c.offset] + c.data;
    assert p[..|p|] == p;
  }

  /** Whatever arrives in whatever order and however often, the buffer is a prefix of its
      transfer's payload, and a transfer only ever completes with its whole payload. */
  lemma {:induction false} BufferIsPrefix(payloads: map<nat, Payload>, s: Reassembly, arrivals: seq<Chunk>)
    requires HoldsPrefix(payloads, s) && AllGenuine(payloads, arrivals)
    ensures HoldsPrefix(payloads, After(s, arrivals))
    ensures forall k :: 0 <= k < |arrivals| && Outcomes(s, arrivals)[k].Complete? ==>
              var o := Outcomes(s, arrivals)[k];
              o.index == arrivals[k].index && o.index in payloads && o.data == payloads[o.index]
    decreases |arrivals|
  {
    if arrivals != [] {
      StepKeepsPrefix(payloads, s, arrivals[0]);
      BufferIsPrefix(payloads, Received(s, arrivals[0]).0, arrivals[1..]);
    }
  }

  // ---------------------------------------------------------------------------
  // In order

  /** The receiver is ready for the chunk at `offset`. */
  predicate Ready(s: Reassembly, index: nat, payload: Payload, offset: nat) {
    offset <= |payload| && (offset == 0 || s == Reassembly(index, payload[..offset]))
  }

  lemma Unfolded(s: Reassembly, index: nat, payload: Payload, offset: nat, sizes: seq<nat>)
    requires Reads(payload, offset, sizes)
    ensures var next := offset + sizes[0];
            var (s', o) := Received(s, Chunk(index, offset, payload[offset..next], |sizes| == 1));
            Outcomes(s, Chunks(index, payload, offset, sizes))
              == [o] + if |sizes| == 1 then [] else Outcomes(s', Chunks(index, payload, next, sizes[1..]))
  {
    var cs := Chunks(index, payload, offset, sizes);
    if |sizes| > 1 {
      assert cs[1..] == Chunks(index, payload, offset + sizes[0], sizes[1..]);
    }
  }

  lemma {:induction false} LostCauseDropped(index: nat, payload: Payload, offset: nat, sizes: seq<nat>)
    requires Reads(payload, offset, sizes) && offset > 0
    ensures forall k :: 0 <= k < |sizes| ==>
              Outcomes(NOTHING, Chunks(index, payload, offset, sizes))[k] == Dropped
    decreases |sizes|
  {
    Unfolded(NOTHING, index, payload, offset, sizes);
    if |sizes| > 1 {
      LostCauseDropped(index, payload, offset + sizes[0], sizes[1..]);
    }
  }

  /** The first chunk from `offset` on takes a ready receiver to the next one. */
  lemma FirstChunk(s: Reassembly, index: nat, payload: Payload, offset: nat, size: nat, done: bool)
    requires Ready(s, index, payload, offset) && offset + size <= |payload|
    ensures Accumulated(s, Chunk(index, offset, payload[offset..offset + size], done)) == Some(payload[..offset + size])
  {
    assert payload[..offset + size] == payload[..offset] + payload[offset..offset + size];
  }

  lemma ChunkAccepted(s: Reassembly, index: nat, payload: Payload, offset: nat, sizes: seq<nat>)
    requires Reads(payload, offset, sizes) && |sizes| > 1 && Ready(s, index, payload, offset) && |payload| <= MAX_REASSEMBLED
    ensures var next := offset + sizes[0];
            Outcomes(s, Chunks(index, payload, offset, sizes))[1..]
              == Outcomes(Reassembly(index, payload[..next]), Chunks(index, payload, next, sizes[1..]))
  {
    Unfolded(s, index, payload, offset, sizes);
    FirstChunk(s, index, payload, offset, sizes[0], false);
  }

  lemma LastChunkCompletes(s: Reassembly, index: nat, payload: Payload, offset: nat, sizes: seq<nat>)
    requires Reads(payload, offset, sizes) && |sizes| == 1 && Ready(s, index, payload, offset) && |payload| <= MAX_REASSEMBLED
    ensures Outcomes(s, Chunks(index, payload, offset, sizes))[0] == Complete(index, payload)
  {
    Unfolded(s, index, payload, offset, sizes);
    FirstChunk(s, index, payload, offset, sizes[0], true);
    assert Total(sizes[1..]) == 0 && payload[..|payload|] == payload;
  }

  lemma {:induction false} WithinCap(s: Reassembly, index: nat, payload: Payload, offset: nat, sizes: seq<nat>)
    requires Reads(payload, offset, sizes) && Ready(s, index, payload, offset) && |payload| <= MAX_REASSEMBLED
    ensures Outcomes(s, Chunks(index, payload, offset, sizes))[|sizes| - 1] == Complete(index, payload)
    decreases |sizes|
  {
    if |sizes| == 1 {
      LastChunkCompletes(s, index, payload, offset, sizes);
    } else {
      var next := offset + sizes[0];
      WithinCap(Reassembly(index, payload[..next]), index, payload, next, sizes[1..]);
      ChunkAccepted(s, index, payload, offset, sizes);
    }
  }

  lemma {:induction false} OverCap(s: Reassembly, index: nat, payload: Payload, offset: nat, sizes: seq<nat>, k: nat)
    requires Reads(payload, offset, sizes) && Ready(s, index, payload, offset) && |payload| > MAX_REASSEMBLED
    requires k < |sizes|
    ensures !Outcomes(s, Chunks(index, payload, offset, sizes))[k].Complete?
    decreases |sizes|
  {
    Unfolded(s, index, payload, offset, sizes);
    FirstChunk(s, index, payload, offset, sizes[0], |sizes| == 1);
    assert |sizes| == 1 ==> Total(sizes[1..]) == 0;
    if k > 0 {
      var next := offset + sizes[0];
      if next > MAX_REASSEMBLED {
        LostCauseDropped(index, payload, next, sizes[1..]);
      } else {
        OverCap(Reassembly(index, payload[..next]), index, payload, next, sizes[1..], k - 1);
      }
    }
  }

  /** A transfer delivered in order completes, whatever the receiver held before and however the
      payload was cut, exactly when the payload is within the cap. */
  lemma InOrderCompletes(s: Reassembly, index: nat, payload: Payload, sizes: seq<nat>)
    requires Reads(payload, 0, sizes)
    ensures var os := Outcomes(s, Chunks(index, payload, 0, sizes));
            && (os[|sizes| - 1] == Complete(index, payload) <==> |payload| <= MAX_REASSEMBLED)
            && ((exists k :: 0 <= k < |os| && os[k].Complete?) <==> |payload| <= MAX_REASSEMBLED)
  {
    if |payload| <= MAX_REASSEMBLED {
      WithinCap(s, index, payload, 0, sizes);
    } else {
      forall k | 0 <= k < |sizes| ensures !Outcomes(s, Chunks(index, payload, 0, sizes))[k].Complete? {
        OverCap(s, index, payload, 0, sizes, k);
      }
    }
  }
}
