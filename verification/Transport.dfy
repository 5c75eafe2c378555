/**
 The reconnecting TCP reader.

 `TCPTransport` keeps an input buffer that is extended, cut and cleared in place. Its methods are
 proved against `LinkModel.Receive`. How a connection is cut into chunks is chosen freely by
 `Socket.Recv`, so whatever the contracts say holds for every chunking.
 */
module Transport {
  import opened Framing
  import opened LinkModel
  import opened Numbers
  import opened Wrappers

  // ------------------------------------------------------------ the environment

  /** One connected socket; `inbound` is what the peer delivers before the connection ends. */
  class Socket {
    var inbound: Bytes

    constructor (inbound: Bytes)
      ensures this.inbound == inbound
    {
      this.inbound := inbound;
    }

    /** Any non-empty chunk up to the limit; empty only at the end (close, error or timeout). */
    method Recv(limit: nat) returns (chunk: Bytes)
      requires limit > 0
      modifies this
      ensures old(inbound) == chunk + inbound
      ensures |chunk| <= limit
      ensures chunk == [] <==> old(inbound) == []
    {
      if inbound == [] {
        return [];
      }
      var k: nat :| 1 <= k <= limit && k <= |inbound|;
      chunk, inbound := inbound[..k], inbound[k..];
    }
  }

  /** The socket factory. */
  class Network {
    var dials: seq<Dial>
    ghost var asked: nat   // how often a connection has been asked for

    constructor (dials: seq<Dial>)
      ensures this.dials == dials
    {
      this.dials := dials;
    }

    method Open() returns (socket: Socket?)
      modifies this
      ensures asked == old(asked) + 1
      ensures dials == LinkModel.Connect(Link(None, old(dials))).dials
      ensures socket == null <==> LinkModel.Connect(Link(None, old(dials))).open.None?
      ensures socket != null ==> fresh(socket) && LinkModel.Connect(Link(None, old(dials))).open == Some(socket.inbound)
    {
      socket, asked := null, asked + 1;
      if dials != [] {
        if dials[0].Reached? {
          socket := new Socket(dials[0].inbound);
        }
        dials := dials[1..];
      }
    }
  }

  // ------------------------------------------------------------ the transport

  class TCPTransport {
    const config: Config
    const network: Network
    var socket: Socket?
    var buffer: Bytes
    ghost var peak: nat          // the longest the buffer has ever been
    ghost var slept: seq<real>   // the delays handed to the sleeper by the latest receive

    ghost predicate Valid()
      reads this
    {
      && config.Valid()
      && |buffer| <= peak <= config.BufferLimit()
      && (socket == null ==> buffer == [])
    }

    /** Buffered bytes and bytes still in the socket are one stream. */
    ghost function View(): Link
      reads this, socket, network
    {
      Link(if socket == null then None else Some(buffer + socket.inbound), network.dials)
    }

    constructor (config: Config, network: Network)
      requires config.Valid()
      ensures Valid() && this.config == config && this.network == network
      ensures socket == null && slept == [] && peak == 0
    {
      this.config, this.network := config, network;
      socket, buffer := null, [];
      peak, slept := 0, [];
    }

    /** The constructor's argument checks: `null` stands for the `ValueError`. */
    static method Create(config: Config, network: Network) returns (transport: TCPTransport?)
      ensures transport == null <==> config.maxFrameBytes <= 0 || config.reconnectAttempts < 0 || config.backoff < 0.0
      ensures transport != null ==>
                fresh(transport) && transport.Valid() && transport.config == config
                && transport.View() == Link(None, network.dials) && transport.slept == []
    {
      transport := null;
      if config.maxFrameBytes > 0 && config.reconnectAttempts >= 0 && config.backoff >= 0.0 {
        transport := new TCPTransport(config, network);
      }
    }

    method Connect() returns (connected: bool)
      requires Valid()
      modifies this, network
      ensures Valid() && slept == old(slept)
      ensures old(socket) != null ==> socket == old(socket)
      ensures old(socket) == null && socket != null ==> fresh(socket)
      ensures connected <==> socket != null
      ensures View() == LinkModel.Connect(old(View()))
      ensures network.asked == old(network.asked) + Dialled(old(View()))
    {
      if socket != null {
        return true;
      }
      socket := network.Open();
      connected := socket != null;
      buffer := [];
      assert connected ==> buffer + socket.inbound == socket.inbound;
    }

    method Close()
      requires Valid()
      modifies this
      ensures Valid() && slept == old(slept) && socket == null
      ensures View() == old(View()).(open := None)
    {
      socket, buffer := null, [];
    }

    /** `self._buffer.extend(self._recv())`; false stands for `ConnectionClosedError`. */
    method Extend() returns (alive: bool)
      requires Valid() && socket != null
      requires |buffer| + config.ChunkLimit() <= config.BufferLimit()
      modifies this, socket
      ensures Valid() && slept == old(slept) && socket == old(socket)
      ensures View() == old(View())
      ensures alive ==> |socket.inbound| < old(|socket.inbound|)
      ensures !alive ==> socket.inbound == [] && buffer == old(buffer)
    {
      var chunk := socket.Recv(config.ChunkLimit());
      assert buffer + (chunk + socket.inbound) == (buffer + chunk) + socket.inbound;
      buffer := buffer + chunk;
      peak := if |buffer| > peak then |buffer| else peak;
      alive := chunk != [];
    }

    method ReadNewlineFrame() returns (r: Option<Item>)
      requires Valid() && socket != null && config.mode.Newline?
      modifies this, socket
      ensures Valid() && slept == old(slept) && socket == old(socket) && network.dials == old(network.dials)
      ensures Answers(Read(config.mode, config.maxFrameBytes, old(View()).open.value), r, View().open)
    {
      ghost var stream := View().open.value;
      while true
        invariant Valid() && slept == old(slept) && socket == old(socket) && network.dials == old(network.dials)
        invariant View().open == Some(stream)
        decreases |socket.inbound|
      {
        ghost var answer := ReadNewline(config.maxFrameBytes, buffer);
        if !answer.Closed? {
          NewlineAnswerIsStable(config.maxFrameBytes, buffer, socket.inbound);
          assert Read(config.mode, config.maxFrameBytes, stream) == Framing.Extend(answer, socket.inbound);
        }
        var delimiter := FindNewline(buffer);
        if delimiter >= 0 {
          if delimiter > config.maxFrameBytes {
            assert answer == Refused(OversizedFrame, buffer);
            return Some(Rejection(OversizedFrame));
          }
          var frame := buffer[..delimiter];
          buffer := buffer[delimiter + 1..];
          assert answer == if IsBlank(frame) then Refused(EmptyFrame, buffer) else Frame(frame, buffer);
          if IsBlank(frame) {
            return Some(Rejection(EmptyFrame));
          }
          return Some(Payload(frame));
        }
        if |buffer| > config.maxFrameBytes {
          assert answer == Refused(OversizedFrame, buffer);
          return Some(Rejection(OversizedFrame));
        }
        var alive := Extend();
        if !alive {
          assert stream == buffer;
          return None;
        }
      }
    }

    /** Buffers at least `size` bytes, unless the connection ends first. */
    method Fill(size: nat) returns (filled: bool)
      requires Valid() && socket != null
      requires size <= 4 || size <= config.maxFrameBytes
      modifies this, socket
      ensures Valid() && slept == old(slept) && socket == old(socket) && network.dials == old(network.dials)
      ensures View() == old(View())
      ensures filled ==> |buffer| >= size
      ensures filled <==> |old(View()).open.value| >= size
    {
      while |buffer| < size
        invariant Valid() && slept == old(slept) && socket == old(socket) && network.dials == old(network.dials)
        invariant View() == old(View())
        decreases |socket.inbound|
      {
        var alive := Extend();
        if !alive {
          return false;
        }
      }
      return true;
    }

    method ReadLengthPrefixedFrame() returns (r: Option<Item>)
      requires Valid() && socket != null && config.mode.LengthPrefixed?
      modifies this, socket
      ensures Valid() && slept == old(slept) && socket == old(socket) && network.dials == old(network.dials)
      ensures Answers(Read(config.mode, config.maxFrameBytes, old(View()).open.value), r, View().open)
    {
      ghost var stream := View().open.value;
      var filled := Fill(4);
      if !filled {
        return None;
      }
      var frameLength := BigEndian(buffer[..4]);
      assert buffer[..4] == stream[..4];
      buffer := buffer[4..];
      assert buffer + socket.inbound == stream[4..];
      if frameLength <= 0 {
        return Some(Rejection(EmptyFrame));
      }
      if frameLength > config.maxFrameBytes {
        return Some(Rejection(OversizedFrame));
      }
      filled := Fill(frameLength);
      if !filled {
        return None;
      }
      var frame := buffer[..frameLength];
      assert frame == stream[4..][..frameLength];
      buffer := buffer[frameLength..];
      assert buffer + socket.inbound == stream[4..][frameLength..];
      return Some(Payload(frame));
    }

    method ReadFrame() returns (r: Option<Item>)
      requires Valid() && socket != null
      modifies this, socket
      ensures Valid() && slept == old(slept) && socket == old(socket) && network.dials == old(network.dials)
      ensures Answers(Read(config.mode, config.maxFrameBytes, old(View()).open.value), r, View().open)
    {
      if config.mode.Newline? {
        r := ReadNewlineFrame();
      } else {
        r := ReadLengthPrefixedFrame();
      }
    }

    /** `self.sleeper(self.reconnect_backoff_seconds * (2**attempt))`. */
    method Sleep(attempt: nat)
      requires Valid() && slept == Delays(config.backoff, attempt)
      modifies this`slept
      ensures slept == Delays(config.backoff, attempt + 1)
    {
      DelayIsExponential(config.backoff, attempt);
      DelaysOneMore(config.backoff, attempt);
      slept := slept + [config.backoff * Power2(attempt) as real];
    }

    /** One pass of the retry loop; `None` is a connection failure, after which everything is closed. */
    method TryOnce() returns (item: Option<Item>)
      requires Valid()
      modifies this, socket, network
      ensures Valid() && slept == old(slept)
      ensures socket == old(socket) || socket == null || fresh(socket)
      ensures LinkModel.Attempt(config, old(View())) == Pass(item, View())
      ensures network.asked == old(network.asked) + Dialled(old(View()))
    {
      var connected := Connect();
      item := None;
      if connected {
        item := ReadFrame();
      }
      if item.None? {
        Close();
      }
    }

    /**
     One `receive`: the answer, the link left behind and the number of dials are those of the
     chunk-free `Receive`, and one delay of the doubling series is slept per failed pass that is retried.
     */
    method Receive(accepts: Bytes -> bool) returns (outcome: Outcome)
      requires Valid()
      modifies this, socket, network
      ensures Valid()
      ensures socket == old(socket) || socket == null || fresh(socket)
      ensures var receipt := LinkModel.Receive(config, old(View()));
              && Tells(outcome, receipt.item, accepts)
              && View() == receipt.link
              && slept == Delays(config.backoff, receipt.failures)
              && network.asked == old(network.asked) + receipt.dials
      ensures Received(config, old(View()), accepts, outcome)
    {
      ReceivedIs(config, View(), accepts);
      ghost var receipt, dialled: nat := LinkModel.Receive(config, View()), 0;
      slept := [];
      for attempt := 0 to config.reconnectAttempts + 1
        invariant Valid()
        invariant socket == old(socket) || socket == null || fresh(socket)
        invariant attempt <= config.reconnectAttempts
        invariant receipt == LinkModel.Receive(config, View(), attempt).DialledBefore(dialled)
        invariant network.asked == old(network.asked) + dialled
        invariant slept == Delays(config.backoff, attempt)
      {
        dialled := dialled + Dialled(View());
        var item := TryOnce();
        if item.Some? {
          DeliverTells(item, accepts);
          return Deliver(item, accepts);
        }
        if attempt >= config.reconnectAttempts {
          return Exhausted;
        }
        Sleep(attempt);
      }
    }

    /** A caller that receives `n` times, whatever the answers are. */
    method ReceiveMany(n: nat, accepts: Bytes -> bool) returns (outcomes: seq<Outcome>)
      requires Valid()
      modifies this, socket, network
      ensures Valid() && |outcomes| == n
      ensures forall i :: 0 <= i < n ==> Tells(outcomes[i], Replies(config, old(View()), n)[i], accepts)
    {
      ghost var replies := Replies(config, View(), n);
      outcomes := [];
      for k := 0 to n
        invariant Valid() && |outcomes| == k
        invariant socket == old(socket) || socket == null || fresh(socket)
        invariant replies[k..] == Replies(config, View(), n - k)
        invariant forall i :: 0 <= i < k ==> Tells(outcomes[i], replies[i], accepts)
      {
        assert replies[k] == LinkModel.Receive(config, View()).item && replies[k + 1..] == replies[k..][1..];
        var outcome := Receive(accepts);
        outcomes := outcomes + [outcome];
      }
    }
  }

  // ------------------------------------------------------------ round trips

  /** What comes out for one frame sent, by its bytes. */
  ghost predicate ComesBack(mode: Mode, payload: Bytes, accepts: Bytes -> bool, outcome: Outcome) {
    var blank := if mode.LengthPrefixed? then |payload| == 0
                 else forall i :: 0 <= i < |payload| ==> payload[i] as int in {9, 10, 11, 12, 13, 32};
    && (blank ==> outcome == FrameRejected(EmptyFrame))
    && (!blank ==> (outcome == Event(payload) <==> accepts(payload)))
    && (!blank ==> (outcome == PayloadRejected(payload) <==> !accepts(payload)))
  }

  lemma AnswerComesBack(mode: Mode, payload: Bytes, accepts: Bytes -> bool, outcome: Outcome)
    requires Tells(outcome, Some(AnswerTo(mode, payload)), accepts)
    ensures ComesBack(mode, payload, accepts, outcome)
  {
    BlankIff(mode, payload);
  }

  /**
   Encoder, wire and reader together: the frames sent on a connection come back in order, one
   answer each, however the bytes are cut into chunks and within whatever frame the connection breaks.
   */
  method RoundTrip(config: Config, payloads: seq<Bytes>, cut: Bytes, accepts: Bytes -> bool)
    returns (outcomes: seq<Outcome>)
    requires config.Valid()
    requires forall i :: 0 <= i < |payloads| ==>
               && |payloads[i]| <= config.maxFrameBytes
               && if config.mode.Newline? then NEWLINE !in payloads[i] else |payloads[i]| < 0x1_0000_0000
    requires Read(config.mode, config.maxFrameBytes, cut).Closed?
    ensures |outcomes| == |payloads|
    ensures forall i :: 0 <= i < |payloads| ==> ComesBack(config.mode, payloads[i], accepts, outcomes[i])
  {
    var feed := Up(payloads, cut);
    OneFeedAnswers(config, payloads, cut);
    var network := new Network([SentBy(config, feed)]);
    var transport := new TCPTransport(config, network);
    outcomes := transport.ReceiveMany(|payloads|, accepts);
    forall i | 0 <= i < |payloads| ensures ComesBack(config.mode, payloads[i], accepts, outcomes[i]) {
      AnswerComesBack(config.mode, payloads[i], accepts, outcomes[i]);
    }
  }

  /**
   The same over any number of connections that break within a frame and hosts that are down: the
   answers are the frames sent, in order, none lost, spliced or repeated, up to where the calls end.
   */
  method ReceiveFeeds(config: Config, feeds: seq<Feed>, n: nat, accepts: Bytes -> bool) returns (outcomes: seq<Outcome>)
    requires config.Valid() && Sendable(config, feeds)
    ensures var replies := Replies(config, Link(None, Sent(config, feeds)), n);
            && |outcomes| == n && (forall i :: 0 <= i < n ==> Tells(outcomes[i], replies[i], accepts))
            && Answered(replies) <= Transmitted(config.mode, feeds)
  {
    var network := new Network(Sent(config, feeds));
    var transport := new TCPTransport(config, network);
    AnswersAreDelivered(config, transport.View(), n);
    EveryCompletePayloadArrivesOnce(config, feeds, Receives(n));
    outcomes := transport.ReceiveMany(n, accepts);
  }

  // ------------------------------------------------------------ memory

  /** At any moment: the buffer's bound, and no bytes without a socket. */
  lemma BufferIsBounded(t: TCPTransport)
    requires t.Valid()
    ensures |t.buffer| <= t.peak
    ensures t.peak <= t.config.maxFrameBytes + t.config.maxFrameBytes + 1 || t.config.maxFrameBytes < 3
    ensures t.peak <= t.config.maxFrameBytes + 65_536 || t.config.maxFrameBytes < 3
    ensures t.config.maxFrameBytes < 3 ==> t.peak <= 3 + t.config.maxFrameBytes + 1
    ensures t.socket == null ==> t.buffer == []
  {
  }
}
