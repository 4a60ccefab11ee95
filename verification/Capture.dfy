/** Bounded capture of command output: a byte ring behind a gate that waits for
    the wire marker, a bounded diagnostic buffer, and the write loop. */
module CommandCapture {
  import opened Wrappers

  type Byte = x: int | 0 <= x < 256 witness 0

  const TWO_64: nat := 0x1_0000_0000_0000_0000
  const MAX_DIAGNOSTIC_BYTES: nat := 32768

  /** `amsftp-shell-wire-v1` and a newline. */
  const MARKER: seq<Byte> := [97, 109, 115, 102, 116, 112, 45, 115, 104, 101, 108, 108, 45, 119, 105, 114, 101, 45,
    118, 49, 10]

  ghost function Last(s: seq<Byte>, n: nat): seq<Byte> { if |s| <= n then s else s[|s| - n..] }

  ghost function First(s: seq<Byte>, n: nat): seq<Byte> { if |s| <= n then s else s[..n] }

  class Ring {
    const buffer: array<Byte>
    var position: nat
    /** A 64-bit counter. */
    var written: nat
    /** Everything written so far. */
    ghost var stream: seq<Byte>

    ghost predicate Valid()
      reads this, buffer
    {
      0 < buffer.Length < TWO_64 && Holds(buffer[..], position, stream) && written == |stream| % TWO_64
    }

    constructor (capacity: nat)
      requires 0 < capacity < TWO_64
      ensures Valid() && stream == [] && fresh(buffer) && buffer.Length == capacity
    {
      buffer := new Byte[capacity](_ => 0);
      position, written, stream := 0, 0, [];
    }

    method Put(value: Byte)
      requires Valid()
      modifies this, buffer
      ensures Valid() && stream == old(stream) + [value]
    {
      PutHolds(buffer[..], position, stream, value);
      CountUp(|stream|);
      hide Holds;
      ghost var before := buffer[..];
      buffer[position] := value;
      assert buffer[..] == before[position := value];
      position := (position + 1) % buffer.Length;
      written := (written + 1) % TWO_64;
      stream := stream + [value];
    }

    method Write(data: seq<Byte>)
      requires Valid()
      modifies this, buffer
      ensures Valid() && stream == old(stream) + data
    {
      hide Holds;
      for i := 0 to |data|
        invariant Valid() && stream == old(stream) + data[..i]
      {
        Put(data[i]);
        assert data[..i + 1] == data[..i] + [data[i]];
      }
      assert data[..|data|] == data;
    }

    /** The retained bytes, oldest first, and how many were discarded: the last
        bytes of the stream and the exact count if and only if the counter has not
        wrapped around. */
    method Snapshot() returns (data: seq<Byte>, discarded: nat)
      requires Valid()
      ensures |data| + discarded == |stream| % TWO_64
      ensures data == Last(stream, buffer.Length) && discarded == |stream| - |data| <==> |stream| < TWO_64
    {
      var retained := if written < buffer.Length then written else buffer.Length;
      var result := new Byte[retained](_ => 0);
      var start := if written >= buffer.Length then position else 0;
      ghost var turned := Rotated(buffer[..], start);
      hide Holds;
      for index := 0 to retained
        invariant result[..index] == turned[..index]
      {
        RotatedAt(buffer[..], start, index);
        result[index] := buffer[(start + index) % buffer.Length];
      }
      data, discarded := result[..], written - retained;
      if |stream| < TWO_64 {
        NotWrapped(|stream|);
        HoldsLast(buffer[..], position, stream);
      }
    }
  }

  ghost function Rotated(buffer: seq<Byte>, start: nat): seq<Byte>
    requires start <= |buffer|
  {
    buffer[start..] + buffer[..start]
  }

  lemma RotatedAt(buffer: seq<Byte>, start: nat, k: nat)
    requires start < |buffer| && k < |buffer|
    ensures buffer[(start + k) % |buffer|] == Rotated(buffer, start)[k]
  {
    if start + k < |buffer| {
      SmallModulo(start + k, |buffer|);
    } else {
      SmallModulo(start + k - |buffer|, |buffer|);
    }
  }

  lemma SmallModulo(a: nat, n: nat)
    requires a < n
    ensures a % n == a && (a + n) % n == a
  {
  }

  /** The buffer, read from `position` on, ends with the latest bytes. */
  ghost predicate Holds(buffer: seq<Byte>, position: nat, stream: seq<Byte>) {
    && position < |buffer|
    && (|stream| < |buffer| ==> position == |stream| && buffer[..position] == stream)
    && (|buffer| <= |stream| ==> Rotated(buffer, position) == stream[|stream| - |buffer|..])
  }

  lemma HoldsLast(buffer: seq<Byte>, position: nat, stream: seq<Byte>)
    requires Holds(buffer, position, stream)
    ensures Last(stream, |buffer|) == if |stream| < |buffer| then Rotated(buffer, 0)[..|stream|]
      else Rotated(buffer, position)
  {
  }

  lemma PutHolds(buffer: seq<Byte>, position: nat, stream: seq<Byte>, value: Byte)
    requires Holds(buffer, position, stream)
    ensures Holds(buffer[position := value], (position + 1) % |buffer|, stream + [value])
  {
    if position + 1 < |buffer| { SmallModulo(position + 1, |buffer|); } else { SmallModulo(0, |buffer|); }
    if |stream| < |buffer| { PutFilling(buffer, position, stream, value); }
      else { PutTurning(buffer, position, stream, value); }
  }

  lemma PutFilling(buffer: seq<Byte>, position: nat, stream: seq<Byte>, value: Byte)
    requires position < |buffer| && position == |stream| && buffer[..position] == stream
    ensures Holds(buffer[position := value], if position + 1 < |buffer| then position + 1 else 0, stream + [value])
  {
    var next, all := buffer[position := value], stream + [value];
    assert next[..position + 1] == all;
    if position + 1 == |buffer| { assert Rotated(next, 0) == next == all == all[0..]; }
  }

  lemma PutTurning(buffer: seq<Byte>, position: nat, stream: seq<Byte>, value: Byte)
    requires position < |buffer| <= |stream| && Rotated(buffer, position) == stream[|stream| - |buffer|..]
    ensures Holds(buffer[position := value], if position + 1 < |buffer| then position + 1 else 0, stream + [value])
  {
    var n, next, all := |buffer|, buffer[position := value], stream + [value];
    var p := if position + 1 < n then position + 1 else 0;
    var turned := buffer[position + 1..] + buffer[..position];
    assert Rotated(buffer, position) == [buffer[position]] + turned;
    assert Rotated(next, p) == turned + [value];
    assert stream[|stream| - n..] == [stream[|stream| - n]] + stream[|stream| - n + 1..];
    assert all[|all| - n..] == stream[|stream| - n + 1..] + [value];
    assert turned == Rotated(buffer, position)[1..] == stream[|stream| - n..][1..];
  }

  lemma CountUp(n: nat)
    ensures (n % TWO_64 + 1) % TWO_64 == (n + 1) % TWO_64
  {
    var q, r := n / TWO_64, n % TWO_64;
    assert n == q * TWO_64 + r;
    if r + 1 == TWO_64 {
      assert n + 1 == (q + 1) * TWO_64;
      MultipleOf(q + 1, 0);
    } else {
      MultipleOf(q, r + 1);
    }
  }

  lemma MultipleOf(q: nat, r: nat)
    requires r < TWO_64
    ensures (q * TWO_64 + r) % TWO_64 == r
  {
  }

  lemma NotWrapped(n: nat)
    requires n < TWO_64
    ensures n % TWO_64 == n
  {
  }

  // ----- The marker gate -----

  datatype Outcome = Proceed | MarkerMissing

  /** What the gate lets through to the ring, and what it announces. */
  datatype Passage = Passage(body: seq<Byte>, announced: seq<Outcome>)

  ghost function Gated(stream: seq<Byte>): Passage {
    if |stream| < |MARKER| then Passage([], [])
    else if MARKER <= stream then Passage(stream[|MARKER|..], [Proceed])
    else Passage(stream, [MarkerMissing])
  }

  ghost function GatedAtEnd(stream: seq<Byte>): Passage {
    if |stream| < |MARKER| then Passage(stream, []) else Gated(stream)
  }

  class MarkerGate {
    const ring: Ring
    var prefix: seq<Byte>
    var decided: bool
    /** The one-slot channel the outcome is announced on. */
    var ready: Option<Outcome>
    ghost var stream: seq<Byte>
    ghost var announced: seq<Outcome>
    ghost var ended: bool

    ghost predicate Valid()
      reads this, ring, ring.buffer
    {
      && ring.Valid()
      && ring.stream == (if ended then GatedAtEnd(stream) else Gated(stream)).body
      && announced == Gated(stream).announced
      && decided == (ended || |MARKER| <= |stream|)
      && (!decided ==> prefix == stream)
      && (ready.Some? ==> announced == [ready.value])
    }

    constructor (ring: Ring)
      requires ring.Valid() && ring.stream == []
      ensures Valid() && this.ring == ring && stream == [] && announced == [] && !ended && ready == None
    {
      this.ring, prefix, decided, ready := ring, [], false, None;
      stream, announced, ended := [], [], false;
    }

    method Announce(outcome: Outcome)
      requires announced == [] && ready == None
      modifies this`ready, this`announced
      ensures announced == [outcome] && ready == Some(outcome)
    {
      ready := Some(outcome);
      announced := announced + [outcome];
    }

    /** Takes a chunk of output, of any size. */
    method Write(value: seq<Byte>)
      requires Valid() && !ended
      modifies this, ring, ring.buffer
      ensures Valid() && !ended && stream == old(stream) + value
      ensures old(announced) != [] ==> ready == old(ready)
      ensures old(announced) == [] ==> (ready.Some? <==> announced != [])
    {
      hide Gated, GatedAtEnd, MARKER, Holds;
      ghost var before := stream;
      stream := stream + value;
      if decided {
        GateStaysOpen(before, value);
        ring.Write(value);
        return;
      }
      GateWaits(before);
      var needed := |MARKER| - |prefix|;
      var count := if needed < |value| then needed else |value|;
      prefix := prefix + value[..count];
      var rest := value[count..];
      assert stream == prefix + rest;
      if |prefix| < |MARKER| {
        assert rest == [];
        GateWaits(stream);
      }
      if |prefix| == |MARKER| {
        decided := true;
        GateOpens(prefix, rest);
        if prefix == MARKER {
          Announce(Proceed);
        } else {
          ring.Write(prefix);
          Announce(MarkerMissing);
        }
        prefix := [];
        if |rest| > 0 { ring.Write(rest); }
      }
    }

    /** The run loop receives the announcement. */
    method TakeReady() returns (outcome: Option<Outcome>)
      requires Valid()
      modifies this`ready
      ensures Valid() && outcome == old(ready) && ready == None
    {
      outcome := ready;
      ready := None;
    }

    /** End of output: an undecided gate gives its bytes to the ring and fails. */
    method FinishEOF() returns (outcome: Outcome)
      requires Valid() && !ended
      modifies this, ring, ring.buffer
      ensures Valid() && ended && stream == old(stream)
      ensures outcome == if |stream| < |MARKER| then MarkerMissing else if old(ready).Some? then old(ready).value
        else Proceed
    {
      hide Holds, MARKER;
      ended := true;
      if decided {
        var pending := TakeReady();
        return if pending.Some? then pending.value else Proceed;
      }
      decided := true;
      ring.Write(prefix);
      prefix := [];
      outcome := MarkerMissing;
    }
  }

  lemma GateWaits(stream: seq<Byte>)
    requires |stream| < |MARKER|
    ensures Gated(stream) == Passage([], [])
  {
  }

  lemma GateOpens(prefix: seq<Byte>, rest: seq<Byte>)
    requires |prefix| == |MARKER|
    ensures Gated(prefix + rest) == if prefix == MARKER then Passage(rest, [Proceed])
      else Passage(prefix + rest, [MarkerMissing])
  {
    assert (prefix + rest)[..|MARKER|] == prefix && (prefix + rest)[|MARKER|..] == rest;
    hide MARKER;
  }

  lemma GateStaysOpen(stream: seq<Byte>, more: seq<Byte>)
    requires |MARKER| <= |stream|
    ensures Gated(stream + more) == Passage(Gated(stream).body + more, Gated(stream).announced)
  {
    assert (stream + more)[..|MARKER|] == stream[..|MARKER|];
    if MARKER <= stream {
      assert (stream + more)[|MARKER|..] == stream[|MARKER|..] + more;
    }
  }

  ghost function Flatten(chunks: seq<seq<Byte>>): seq<Byte> {
    if chunks == [] then [] else Flatten(chunks[..|chunks| - 1]) + chunks[|chunks| - 1]
  }

  /** Whatever the chunking, the result is a function of the whole stream. */
  method CaptureStream(chunks: seq<seq<Byte>>, capacity: nat)
    returns (outcome: Outcome, data: seq<Byte>, discarded: nat)
    requires 0 < capacity < TWO_64
    ensures outcome == Proceed <==> MARKER <= Flatten(chunks)
    ensures |Flatten(chunks)| < TWO_64 ==>
      var body := GatedAtEnd(Flatten(chunks)).body;
      data == Last(body, capacity) && discarded == |body| - |data|
  {
    var ring := new Ring(capacity);
    var gate := new MarkerGate(ring);
    for i := 0 to |chunks|
      invariant gate.Valid() && !gate.ended && gate.stream == Flatten(chunks[..i]) && gate.ring == ring && fresh(gate)
      invariant fresh(ring) && fresh(ring.buffer)
      invariant ring.buffer.Length == capacity && (gate.ready.Some? <==> gate.announced != [])
    {
      gate.Write(chunks[i]);
      assert chunks[..i + 1][..i] == chunks[..i];
    }
    assert chunks[..|chunks|] == chunks;
    outcome := gate.FinishEOF();
    data, discarded := ring.Snapshot();
  }

  // ----- Diagnostics and writing -----

  class DiagnosticBuffer {
    var data: seq<Byte>
    /** A 64-bit counter. */
    var discarded: nat
    ghost var stream: seq<Byte>

    ghost predicate Valid()
      reads this
    {
      data == First(stream, MAX_DIAGNOSTIC_BYTES) && discarded == (|stream| - |data|) % TWO_64
    }

    constructor ()
      ensures Valid() && stream == []
    {
      data, discarded, stream := [], 0, [];
    }

    method Write(value: seq<Byte>)
      requires Valid()
      modifies this
      ensures Valid() && stream == old(stream) + value
    {
      ghost var dropped := |stream| - |data|;
      stream := stream + value;
      var available := MAX_DIAGNOSTIC_BYTES - |data|;
      if 0 < available {
        var count := if available < |value| then available else |value|;
        data := data + value[..count];
      }
      var room := if 0 < available then available else 0;
      if room < |value| {
        discarded := (discarded + (|value| - room)) % TWO_64;
        AddModulo(dropped, |value| - room);
      }
    }
  }

  lemma AddModulo(a: nat, b: nat)
    ensures (a % TWO_64 + b) % TWO_64 == (a + b) % TWO_64
  {
    var q, r := a / TWO_64, a % TWO_64;
    assert a + b == q * TWO_64 + (r + b);
    var p, s := (r + b) / TWO_64, (r + b) % TWO_64;
    assert a + b == (q + p) * TWO_64 + s by { assert q * TWO_64 + p * TWO_64 == (q + p) * TWO_64; }
    MultipleOf(q + p, s);
  }

  /** A writer that accepts as much as its script says: how many bytes each call
      takes, and whether it reports an error. */
  class Sink {
    var script: seq<(nat, bool)>
    ghost var accepted: seq<Byte>

    constructor (script: seq<(nat, bool)>)
      ensures accepted == []
    {
      this.script, accepted := script, [];
    }

    method Write(value: seq<Byte>) returns (written: nat, failed: bool)
      modifies this
      ensures written <= |value| && accepted == old(accepted) + value[..written]
    {
      written, failed := |value|, false;
      if script != [] {
        written, failed := if script[0].0 < |value| then script[0].0 else |value|, script[0].1;
        script := script[1..];
      }
      accepted := accepted + value[..written];
    }
  }

  /** Writes until everything is accepted, a call fails or takes nothing; the
      count is exactly what was accepted. */
  method WriteCount(sink: Sink, value: seq<Byte>) returns (total: nat, ok: bool)
    modifies sink
    ensures total <= |value| && sink.accepted == old(sink.accepted) + value[..total]
    ensures ok ==> total == |value|
  {
    total := 0;
    assert value[..0] == [];
    while total < |value|
      invariant total <= |value| && sink.accepted == old(sink.accepted) + value[..total]
    {
      var written, failed := sink.Write(value[total..]);
      assert value[..total + written] == value[..total] + value[total..][..written];
      total := total + written;
      if failed { return total, false; }
      if written == 0 { return total, false; }
    }
    ok := true;
  }
}
