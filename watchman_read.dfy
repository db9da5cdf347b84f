/**
 * The read loop of `readBSER` (src/watchman/watchman.cc): read a 20-byte
 * probe, decode the message length from it, then read the rest in chunks of
 * at most the 256-byte buffer until the whole message has arrived.
 *
 * The byte source (`fread` on the watchman process or a socket read) and
 * BSER's header decoding are not part of this model: both are parameters.
 * BSER decoding of the collected bytes is not modelled either; the method
 * returns the bytes it collected.
 */
module BserRead {

  type byte = bv8

  /** The size of the first read, enough to decode the length header. */
  const ProbeSize: nat := 20

  /** The size of the stack buffer that every read goes through. */
  const BufferSize: nat := 256

  /**
   * What `BSER::decodeLength` and the stream position after it report about
   * the bytes read so far: the length of the payload and where it starts.
   */
  datatype Header = Header(payloadLength: nat, headerEnd: nat)

  /** The total length of the message announced by the probe: header plus payload. */
  function MessageLength(decodeLength: seq<byte> -> Header, probe: seq<byte>): nat
  {
    decodeLength(probe).payloadLength + decodeLength(probe).headerEnd
  }

  /** The bytes the first `|sizes|` reads return, read `k` asking for `sizes[k]`. */
  function Received(doRead: (nat, nat) -> seq<byte>, sizes: seq<nat>): seq<byte>
    decreases |sizes|
  {
    if sizes == [] then []
    else Received(doRead, sizes[..|sizes| - 1]) + doRead(|sizes| - 1, sizes[|sizes| - 1])
  }

  function Min(a: int, b: int): int { if a < b then a else b }
  function Max(a: int, b: int): int { if a < b then b else a }

  /**
   * Every read after the probe asked for the part of a `total`-byte message
   * still missing when it was made, capped at the buffer size.
   */
  predicate ChunkSizesFollow(doRead: (nat, nat) -> seq<byte>, total: int, sizes: seq<nat>)
  {
    forall k :: 1 <= k < |sizes| ==> sizes[k] == Min(total - |Received(doRead, sizes[..k])|, BufferSize)
  }

  /** One more read appends the bytes it returns. */
  lemma ReceivedSnoc(doRead: (nat, nat) -> seq<byte>, sizes: seq<nat>, n: nat)
    ensures Received(doRead, sizes + [n]) == Received(doRead, sizes) + doRead(|sizes|, n)
  {
    assert (sizes + [n])[..|sizes|] == sizes;
  }

  /** Adding one read that asks for the missing part, capped, keeps the chunk-size rule. */
  lemma ChunkSizesExtend(doRead: (nat, nat) -> seq<byte>, total: int, sizes: seq<nat>, n: nat)
    requires ChunkSizesFollow(doRead, total, sizes)
    requires n == Min(total - |Received(doRead, sizes)|, BufferSize)
    ensures ChunkSizesFollow(doRead, total, sizes + [n])
  {
    var sizes' := sizes + [n];
    forall k | 1 <= k < |sizes'|
      ensures sizes'[k] == Min(total - |Received(doRead, sizes'[..k])|, BufferSize)
    {
      if k < |sizes| {
        assert sizes'[..k] == sizes[..k];
        assert sizes'[k] == sizes[k];
      } else {
        assert sizes'[..k] == sizes;
      }
    }
  }

  /**
   * `readBSER`. Read `k` asks `doRead(k, n)` for `n` bytes and gets back at
   * most `n`; the source loops forever when a read returns nothing, so the
   * model assumes every read of a positive size returns at least one byte.
   *
   * The first read asks for 20 bytes; every later read asks for the part of
   * the announced message still missing, capped at 256. The loop stops once
   * the whole message has arrived, and never reads past its end except for
   * what the 20-byte probe already took.
   */
  method ReadBser(doRead: (nat, nat) -> seq<byte>, decodeLength: seq<byte> -> Header)
    returns (data: seq<byte>, sizes: seq<nat>)
    requires forall call, n :: |doRead(call, n)| <= n
    requires forall call, n :: n > 0 ==> |doRead(call, n)| > 0
    ensures |sizes| >= 1 && sizes[0] == ProbeSize
    ensures data == Received(doRead, sizes)
    ensures ChunkSizesFollow(doRead, MessageLength(decodeLength, doRead(0, ProbeSize)), sizes)
    ensures forall k :: 1 <= k < |sizes| ==> 0 < sizes[k] <= BufferSize
    ensures |data| >= MessageLength(decodeLength, doRead(0, ProbeSize))
    ensures |data| <= Max(MessageLength(decodeLength, doRead(0, ProbeSize)), |doRead(0, ProbeSize)|)
  {
    var r := doRead(0, ProbeSize);
    data := r;
    sizes := [ProbeSize];
    assert sizes[..0] == [];
    ghost var total := MessageLength(decodeLength, r);
    var header := decodeLength(data);
    var len: int := header.payloadLength + header.headerEnd;
    len := len - |r|;
    while len > 0
      invariant |sizes| >= 1 && sizes[0] == ProbeSize
      invariant data == Received(doRead, sizes)
      invariant len == total - |data|
      invariant ChunkSizesFollow(doRead, total, sizes)
      invariant forall k :: 1 <= k < |sizes| ==> 0 < sizes[k] <= BufferSize
      invariant |data| <= Max(total, |doRead(0, ProbeSize)|)
      decreases len
    {
      var n: nat := if len < BufferSize then len else BufferSize;
      r := doRead(|sizes|, n);
      ChunkSizesExtend(doRead, total, sizes, n);
      ReceivedSnoc(doRead, sizes, n);
      data := data + r;
      sizes := sizes + [n];
      len := len - |r|;
    }
  }
}
