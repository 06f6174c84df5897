/** The pipes of the process pool: `_send`, `_receive` and `_serve` of app/engine/process_pool.py. Pickling
    is left to the caller: a payload is the pickled bytes. */
module Frames {
  import opened Wrappers

  type Byte = x: int | 0 <= x < 256

  const HEADER: nat := 8

  function Power(n: nat): nat { if n == 0 then 1 else 256 * Power(n - 1) }

  // ---- the header -----------------------------------------------------------------------

  /** `n` in `width` bytes, most significant first. */
  function Pack(n: nat, width: nat): (bytes: seq<Byte>)
    ensures |bytes| == width
  {
    if width == 0 then [] else Pack(n / 256, width - 1) + [n % 256]
  }

  function Unpack(bytes: seq<Byte>): nat {
    if bytes == [] then 0 else 256 * Unpack(bytes[..|bytes| - 1]) + bytes[|bytes| - 1]
  }

  lemma {:induction false} UnpackPack(n: nat, width: nat)
    requires n < Power(width)
    ensures Unpack(Pack(n, width)) == n
  {
    if width > 0 {
      UnpackPack(n / 256, width - 1);
      var bytes := Pack(n, width);
      assert bytes[..width - 1] == Pack(n / 256, width - 1);
    }
  }

  lemma {:induction false} PackUnpack(bytes: seq<Byte>)
    ensures Unpack(bytes) < Power(|bytes|) && Pack(Unpack(bytes), |bytes|) == bytes
  {
    if bytes != [] {
      PackUnpack(bytes[..|bytes| - 1]);
      assert bytes == bytes[..|bytes| - 1] + [bytes[|bytes| - 1]];
    }
  }

  // ---- frames ---------------------------------------------------------------------------------

  /** The length fits the header; `struct.pack` refuses any other. */
  predicate Sendable(payload: seq<Byte>) { |payload| < Power(HEADER) }

  /** A header is eight bytes, the most significant first. */
  lemma HeaderIsBigEndian(n: nat)
    ensures var h := Pack(n, HEADER);
      && |h| == 8 && h[7] == n % 256 && h[6] == n / 256 % 256 && h[5] == n / 256 / 256 % 256
      && h[4] == n / 256 / 256 / 256 % 256 && h[3] == n / 256 / 256 / 256 / 256 % 256
      && h[2] == n / 256 / 256 / 256 / 256 / 256 % 256 && h[1] == n / 256 / 256 / 256 / 256 / 256 / 256 % 256
      && h[0] == n / 256 / 256 / 256 / 256 / 256 / 256 / 256 % 256
  {
    forall k: nat | k < 8 ensures Pack(n, 8)[7 - k] == Shifted(n, k) % 256 {
      PackByte(n, 8, k);
    }
    ShiftedMore(n, 0);
    ShiftedMore(n, 1);
    ShiftedMore(n, 2);
    ShiftedMore(n, 3);
    ShiftedMore(n, 4);
    ShiftedMore(n, 5);
    ShiftedMore(n, 6);
    hide Pack, Shifted;
    var h := Pack(n, 8);
    assert h[7 - 7] == Shifted(n, 7) % 256 && h[7 - 6] == Shifted(n, 6) % 256 && h[7 - 5] == Shifted(n, 5) % 256;
    assert h[7 - 4] == Shifted(n, 4) % 256 && h[7 - 3] == Shifted(n, 3) % 256 && h[7 - 2] == Shifted(n, 2) % 256;
  }

  lemma {:induction false} ShiftedMore(n: nat, k: nat)
    ensures Shifted(n, k + 1) == Shifted(n, k) / 256
  {
    if k > 0 {
      ShiftedMore(n / 256, k - 1);
    }
  }

  /** `n` without its `k` lowest bytes. */
  function Shifted(n: nat, k: nat): nat { if k == 0 then n else Shifted(n / 256, k - 1) }

  lemma {:induction false} PackByte(n: nat, width: nat, k: nat)
    requires k < width
    ensures Pack(n, width)[width - 1 - k] == Shifted(n, k) % 256
  {
    if k > 0 {
      PackByte(n / 256, width - 1, k - 1);
    }
  }

  /** Only a payload of 2^64 bytes or more is refused. */
  lemma HeaderLimit(payload: seq<Byte>)
    ensures Sendable(payload) <==> |payload| < 0x1_0000_0000_0000_0000
  {
    assert Power(4) == 256 * 256 * 256 * 256;
    assert Power(8) == 256 * 256 * 256 * 256 * Power(4);
  }

  function Frame(payload: seq<Byte>): seq<Byte> { Pack(|payload|, HEADER) + payload }

  function Frames(payloads: seq<seq<Byte>>): seq<Byte> {
    if payloads == [] then [] else Frame(payloads[0]) + Frames(payloads[1..])
  }

  /** One frame off the front of the bytes; None is the EOFError. */
  function Take(data: seq<Byte>): (r: Option<(seq<Byte>, seq<Byte>)>)
    ensures r.Some? ==> |r.value.1| < |data|
  {
    if |data| < HEADER then None
    else
      var size := Unpack(data[..HEADER]);
      if |data| < HEADER + size then None
      else Some((data[HEADER..HEADER + size], data[HEADER + size..]))
  }

  /** Every payload up to the EOFError. */
  function TakeAll(data: seq<Byte>): seq<seq<Byte>>
    decreases |data|
  {
    match Take(data)
    case None => []
    case Some((payload, rest)) => [payload] + TakeAll(rest)
  }

  lemma TakeFrame(payload: seq<Byte>, rest: seq<Byte>)
    requires Sendable(payload)
    ensures Take(Frame(payload) + rest) == Some((payload, rest))
  {
    var data := Frame(payload) + rest;
    UnpackPack(|payload|, HEADER);
    assert data[..HEADER] == Pack(|payload|, HEADER);
    assert data[HEADER..HEADER + |payload|] == payload;
    assert data[HEADER + |payload|..] == rest;
  }

  /** A frame that is cut short is an EOFError, never a shorter payload. */
  lemma TakeTruncated(payload: seq<Byte>, n: nat)
    requires Sendable(payload) && n < |Frame(payload)|
    ensures Take(Frame(payload)[..n]) == None
  {
    var data := Frame(payload)[..n];
    if n >= HEADER {
      UnpackPack(|payload|, HEADER);
      assert data[..HEADER] == Pack(|payload|, HEADER);
    }
  }

  /** How many whole frames fit in the first `n` bytes. */
  function Whole(payloads: seq<seq<Byte>>, n: nat): nat {
    if payloads == [] || n < |Frame(payloads[0])| then 0 else 1 + Whole(payloads[1..], n - |Frame(payloads[0])|)
  }

  lemma {:induction false} WholeBound(payloads: seq<seq<Byte>>, n: nat)
    ensures Whole(payloads, n) <= |payloads|
    ensures n >= |Frames(payloads)| ==> Whole(payloads, n) == |payloads|
  {
    if payloads != [] && n >= |Frame(payloads[0])| {
      WholeBound(payloads[1..], n - |Frame(payloads[0])|);
    }
  }

  /** Reading the first `n` bytes of a stream of frames yields exactly the payloads that are whole in it. */
  lemma {:induction false} ReadsWholeFrames(payloads: seq<seq<Byte>>, n: nat)
    requires n <= |Frames(payloads)| && forall i | 0 <= i < |payloads| :: Sendable(payloads[i])
    ensures Whole(payloads, n) <= |payloads| && TakeAll(Frames(payloads)[..n]) == payloads[..Whole(payloads, n)]
    decreases |payloads|
  {
    hide Frame, Take, Sendable;
    WholeBound(payloads, n);
    if payloads != [] {
      var first, rest := Frame(payloads[0]), payloads[1..];
      if n < |first| {
        assert Frames(payloads)[..n] == first[..n];
        TakeTruncated(payloads[0], n);
      } else {
        assert Frames(payloads)[..n] == first + Frames(rest)[..n - |first|];
        TakeFrame(payloads[0], Frames(rest)[..n - |first|]);
        ReadsWholeFrames(rest, n - |first|);
      }
    }
  }

  /** Round trip: the frames of any payloads read back as the payloads. */
  lemma FramesRoundTrip(payloads: seq<seq<Byte>>)
    requires forall i | 0 <= i < |payloads| :: Sendable(payloads[i])
    ensures TakeAll(Frames(payloads)) == payloads
  {
    WholeBound(payloads, |Frames(payloads)|);
    ReadsWholeFrames(payloads, |Frames(payloads)|);
    assert Frames(payloads)[..|Frames(payloads)|] == Frames(payloads);
    assert payloads[..|payloads|] == payloads;
  }

  // ---- reading and serving --------------------------------------------------------------------------

  /** A pipe, read from the front and written at the end. */
  class Stream {
    var data: seq<Byte>

    constructor (data: seq<Byte>)
      ensures this.data == data
    {
      this.data := data;
    }

    /** `read(size)`: fewer bytes only at the end of the stream. */
    method Read(size: nat) returns (bytes: seq<Byte>)
      modifies this
      ensures if size <= |old(data)| then bytes == old(data)[..size] && data == old(data)[size..]
        else bytes == old(data) && data == []
    {
      if size <= |data| {
        bytes, data := data[..size], data[size..];
      } else {
        bytes, data := data, [];
      }
    }

    /** `_send`: a payload too long for the header is the struct error. */
    method Send(payload: seq<Byte>) returns (sent: bool)
      modifies this
      ensures sent <==> Sendable(payload)
      ensures data == if sent then old(data) + Frame(payload) else old(data)
    {
      if |payload| >= Power(HEADER) {
        return false;
      }
      data := data + Pack(|payload|, HEADER);
      data := data + payload;
      sent := true;
    }

    /** `_receive`. */
    method Receive() returns (r: Option<seq<Byte>>)
      modifies this
      ensures match Take(old(data))
        case None => r == None
        case Some((payload, rest)) => r == Some(payload) && data == rest
    {
      ghost var all := data;
      var header := Read(HEADER);
      if |header| < HEADER {
        return None;
      }
      var size := Unpack(header);
      assert HEADER + size <= |all| ==>
        all[HEADER..][..size] == all[HEADER..HEADER + size] && all[HEADER..][size..] == all[HEADER + size..];
      var payload := Read(size);
      if |payload| < size {
        return None;
      }
      r := Some(payload);
    }
  }

  function Answers(requests: seq<seq<Byte>>, answer: seq<Byte> -> seq<Byte>): seq<seq<Byte>> {
    seq(|requests|, i requires 0 <= i < |requests| => answer(requests[i]))
  }

  /** `_serve`: one reply for each request, in order, until the requests end. Every outcome of a job, also an
      exception, is a reply. */
  method Serve(reader: Stream, writer: Stream, answer: seq<Byte> -> seq<Byte>) returns (served: nat)
    requires reader != writer && forall request :: Sendable(answer(request))
    modifies reader, writer
    ensures writer.data == old(writer.data) + Frames(Answers(TakeAll(old(reader.data)), answer))
    ensures served == |TakeAll(old(reader.data))|
  {
    hide Frame, Frames, Sendable, Answers, Unpack, Pack;
    ghost var requests := TakeAll(reader.data);
    NoReplies(answer);
    served := 0;
    while true
      invariant served <= |requests| && requests[served..] == TakeAll(reader.data)
      invariant writer.data == old(writer.data) + Frames(Answers(requests[..served], answer))
      decreases |reader.data|
    {
      ghost var before := reader.data;
      var request := reader.Receive();
      if request.None? {
        assert requests[..served] == requests;
        return;
      }
      assert requests[served] == request.value;
      var _ := writer.Send(answer(request.value));
      OneMoreReply(requests, served, answer);
      served := served + 1;
    }
  }

  lemma NoReplies(answer: seq<Byte> -> seq<Byte>)
    ensures Frames(Answers([], answer)) == []
  {}

  lemma OneMoreReply(requests: seq<seq<Byte>>, k: nat, answer: seq<Byte> -> seq<Byte>)
    requires k < |requests|
    ensures Frames(Answers(requests[..k + 1], answer)) ==
            Frames(Answers(requests[..k], answer)) + Frame(answer(requests[k]))
  {
    FramesMore(Answers(requests[..k], answer), answer(requests[k]));
    assert Answers(requests[..k + 1], answer) == Answers(requests[..k], answer) + [answer(requests[k])];
  }

  lemma {:induction false} FramesMore(payloads: seq<seq<Byte>>, payload: seq<Byte>)
    ensures Frames(payloads + [payload]) == Frames(payloads) + Frame(payload)
  {
    if payloads == [] {
      assert [payload][1..] == [];
    } else {
      FramesMore(payloads[1..], payload);
      assert (payloads + [payload])[1..] == payloads[1..] + [payload];
    }
  }

  /** The k-th reply on the pipe answers the k-th request, also when either pipe is cut short. */
  lemma KthReplyAnswersKthRequest(requests: seq<seq<Byte>>, answer: seq<Byte> -> seq<Byte>, n: nat, m: nat)
    requires forall i | 0 <= i < |requests| :: Sendable(requests[i])
    requires forall request :: Sendable(answer(request))
    requires n <= |Frames(requests)|
    requires m <= |Frames(Answers(TakeAll(Frames(requests)[..n]), answer))|
    ensures var replies := TakeAll(Frames(Answers(TakeAll(Frames(requests)[..n]), answer))[..m]);
      |replies| <= |requests| && forall k | 0 <= k < |replies| :: replies[k] == answer(requests[k])
  {
    ReadsWholeFrames(requests, n);
    var seen := TakeAll(Frames(requests)[..n]);
    ReadsWholeFrames(Answers(seen, answer), m);
  }
}
