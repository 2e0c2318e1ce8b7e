/** apps/runtime/src/guest-logs.c
  *
  * Tenant output on its way to the host. Output that cannot be sent is dropped and counted, and the
  * count goes out as a gap before the next output. What the kernel answers is a parameter.
  */
module GuestLogs {
  import opened Prelude

  const RECONNECT_DELAY_MS := 250
  const UINT32_MAX := 0xffff_ffff
  const UINT64_MAX := 0xffff_ffff_ffff_ffff
  const GAP_PAYLOAD_BYTES := 8

  datatype Connection = Disconnected | Connecting | Connected

  datatype OutputStream = Stdout | Stderr

  /** A frame that was handed to the socket whole. */
  datatype Frame = Output(stream: OutputStream, bytes: seq<Byte>) | Gap(dropped: nat)

  /** `socketOpen` says that there is a descriptor. */
  datatype Forwarder = Forwarder(socketOpen: bool, connection: Connection, retryAfterMs: nat, droppedBytes: nat)

  datatype Connect = Established | InProgress | Unreachable

  /** What the clock and the kernel answer while one call is made. */
  datatype Kernel = Kernel(
    nowMs: nat,
    socket: bool,        // `socket` gives a descriptor
    connect: Connect,
    writable: bool,      // `poll` says that connecting has ended
    failed: bool,        // and `SO_ERROR` that it failed
    hangup: bool,        // a peek sees the end of the stream or an error
    gapSent: bool,       // `sendmsg` takes the whole gap frame
    outputSent: bool)    // and the whole output frame

  // ----- What each call does

  function Disconnecting(f: Forwarder, k: Kernel): Forwarder {
    f.(socketOpen := false, connection := Disconnected, retryAfterMs := k.nowMs + RECONNECT_DELAY_MS)
  }

  /** `start_connection`. */
  function Starting(f: Forwarder, k: Kernel): Forwarder {
    if k.nowMs < f.retryAfterMs then f
    else if !k.socket then f.(retryAfterMs := k.nowMs + RECONNECT_DELAY_MS)
    else
      match k.connect
      case Established => f.(socketOpen := true, connection := Connected)
      case InProgress => f.(socketOpen := true, connection := Connecting)
      case Unreachable => Disconnecting(f, k)
  }

  /** `connection_ready`; it is ready when the result is connected. */
  function Readying(f: Forwarder, k: Kernel): Forwarder {
    var started := if f.connection == Disconnected then Starting(f, k) else f;
    if started.connection != Connecting || !k.writable then started
    else if k.failed then Disconnecting(started, k)
    else started.(connection := Connected)
  }

  function Counted(dropped: nat, count: nat): nat {
    if count > UINT64_MAX - dropped then UINT64_MAX else dropped + count
  }

  function Dropping(f: Forwarder, count: nat): Forwarder {
    f.(droppedBytes := Counted(f.droppedBytes, count))
  }

  predicate Sendable(bytes: seq<Byte>, k: Kernel) {
    |bytes| <= UINT32_MAX && k.outputSent
  }

  /** `forward_output`: the forwarder afterwards, and the frames that went out. */
  function Forwarding(f: Forwarder, stream: OutputStream, bytes: seq<Byte>, k: Kernel): (Forwarder, seq<Frame>) {
    var ready := Readying(f, k);
    if ready.connection != Connected then (Dropping(ready, |bytes|), [])
    else if ready.droppedBytes > 0 && !k.gapSent then (Dropping(Disconnecting(ready, k), |bytes|), [])
    else
      var gap := if ready.droppedBytes > 0 then [Gap(ready.droppedBytes)] else [];
      var caughtUp := ready.(droppedBytes := 0);
      if Sendable(bytes, k) then (caughtUp, gap + [Output(stream, bytes)])
      else (Dropping(Disconnecting(caughtUp, k), |bytes|), gap)
  }

  function Servicing(f: Forwarder, k: Kernel): Forwarder {
    Readying(if f.connection == Connected && k.hangup then Disconnecting(f, k) else f, k)
  }

  function Initialized(k: Kernel): Forwarder {
    Starting(Forwarder(false, Disconnected, 0, 0), k)
  }

  predicate Valid(f: Forwarder) {
    && (f.socketOpen <==> f.connection != Disconnected)
    && f.droppedBytes <= UINT64_MAX
  }

  // ----- The class

  class GuestLogForwarder {
    var socketOpen: bool
    var connection: Connection
    var retryAfterMs: nat
    var droppedBytes: nat

    function Value(): Forwarder
      reads this
    {
      Forwarder(socketOpen, connection, retryAfterMs, droppedBytes)
    }

    constructor (k: Kernel)
      ensures Value() == Initialized(k) && Valid(Value())
    {
      socketOpen, connection, retryAfterMs, droppedBytes := false, Disconnected, 0, 0;
      new;
      StartConnection(k);
    }

    method Disconnect(k: Kernel)
      modifies this
      ensures Value() == Disconnecting(old(Value()), k)
    {
      socketOpen, connection := false, Disconnected;
      retryAfterMs := k.nowMs + RECONNECT_DELAY_MS;
    }

    method StartConnection(k: Kernel)
      modifies this
      ensures Value() == Starting(old(Value()), k)
    {
      if k.nowMs < retryAfterMs {
        return;
      }
      if !k.socket {
        retryAfterMs := k.nowMs + RECONNECT_DELAY_MS;
        return;
      }
      socketOpen := true;
      if k.connect == Established {
        connection := Connected;
        return;
      }
      if k.connect == InProgress {
        connection := Connecting;
        return;
      }
      Disconnect(k);
    }

    method ConnectionReady(k: Kernel) returns (ready: bool)
      modifies this
      ensures Value() == Readying(old(Value()), k) && (ready <==> connection == Connected)
    {
      if connection == Disconnected {
        StartConnection(k);
      }
      if connection == Connected {
        return true;
      }
      if connection != Connecting || !k.writable {
        return false;
      }
      if k.failed {
        Disconnect(k);
        return false;
      }
      connection := Connected;
      ready := true;
    }

    method AddDroppedBytes(count: nat)
      requires droppedBytes <= UINT64_MAX
      modifies this`droppedBytes
      ensures Value() == Dropping(old(Value()), count)
    {
      var room := UINT64_MAX - droppedBytes;
      droppedBytes := droppedBytes + if count > room then room else count;
    }

    method ForwardOutput(stream: OutputStream, bytes: seq<Byte>, k: Kernel) returns (sent: seq<Frame>)
      requires Valid(Value())
      modifies this
      ensures (Value(), sent) == Forwarding(old(Value()), stream, bytes, k) && Valid(Value())
    {
      sent := [];
      var ready := ConnectionReady(k);
      if !ready {
        AddDroppedBytes(|bytes|);
        return;
      }
      if droppedBytes > 0 {
        if !k.gapSent {
          Disconnect(k);
          AddDroppedBytes(|bytes|);
          return;
        }
        sent := [Gap(droppedBytes)];
        droppedBytes := 0;
      }
      if |bytes| > UINT32_MAX || !k.outputSent {
        Disconnect(k);
        AddDroppedBytes(|bytes|);
        return;
      }
      sent := sent + [Output(stream, bytes)];
    }

    method ServiceConnection(k: Kernel)
      requires Valid(Value())
      modifies this
      ensures Value() == Servicing(old(Value()), k) && Valid(Value())
    {
      if connection == Connected && k.hangup {
        Disconnect(k);
      }
      var _ := ConnectionReady(k);
    }
  }

  // ----- A gap's payload

  lemma {:induction false} BigEndianFront(first: Byte, rest: seq<Byte>)
    ensures BigEndian([first] + rest) == first as int * Power256(|rest|) + BigEndian(rest)
  {
    if rest == [] {
      assert [first][..0] == [];
      assert [first] + rest == [first];
    } else {
      var last := |rest| - 1;
      BigEndianFront(first, rest[..last]);
      assert ([first] + rest)[..|rest|] == [first] + rest[..last];
    }
  }

  lemma ShiftByte(rest: nat, index: nat)
    requires index < GAP_PAYLOAD_BYTES && rest < Power256(GAP_PAYLOAD_BYTES - index)
    ensures rest * Power256(index) == rest / 256 * Power256(index + 1) + rest % 256 * Power256(index)
    ensures rest / 256 < Power256(GAP_PAYLOAD_BYTES - index - 1)
  {
    var q, r, p := rest / 256, rest % 256, Power256(index);
    assert rest == q * 256 + r;
    assert (q * 256 + r) * p == q * (256 * p) + r * p;
  }

  /** `encode_u64`, which fills the buffer from its end. */
  method EncodeU64(value: nat) returns (encoded: array<Byte>)
    requires value <= UINT64_MAX
    ensures encoded.Length == GAP_PAYLOAD_BYTES && BigEndian(encoded[..]) == value
  {
    encoded := new Byte[GAP_PAYLOAD_BYTES](_ => 0);
    var rest: nat := value;
    for index := 0 to GAP_PAYLOAD_BYTES
      invariant encoded.Length == GAP_PAYLOAD_BYTES
      invariant rest * Power256(index) + BigEndian(encoded[GAP_PAYLOAD_BYTES - index..]) == value
      invariant rest < Power256(GAP_PAYLOAD_BYTES - index)
    {
      ShiftByte(rest, index);
      WriteByte(encoded, GAP_PAYLOAD_BYTES - index - 1, rest % 256);
      rest := rest / 256;
    }
    assert encoded[0..] == encoded[..];
  }

  method WriteByte(encoded: array<Byte>, at: nat, byte: Byte)
    requires at < encoded.Length
    modifies encoded
    ensures BigEndian(encoded[at..]) == byte as int * Power256(encoded.Length - at - 1) + old(BigEndian(encoded[at + 1..]))
  {
    ghost var tail := encoded[at + 1..];
    encoded[at] := byte;
    assert encoded[at..] == [byte] + tail;
    BigEndianFront(byte, tail);
  }
}
