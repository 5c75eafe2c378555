/**
 A reconnecting reader seen from outside: the bytes still to come on the open connection, the
 outcomes of the dials still to come, and what one `receive` makes of them. No buffer, no chunks.
 */
module LinkModel {
  import opened Framing
  import opened Numbers
  import opened Wrappers

  const RECV_LIMIT: nat := 65_536

  /** The constructor arguments that matter to the protocol. */
  datatype Config = Config(mode: Mode, maxFrameBytes: int, reconnectAttempts: int, backoff: real) {
    predicate Valid() {
      maxFrameBytes > 0 && reconnectAttempts >= 0 && backoff >= 0.0
    }

    function ChunkLimit(): nat
      requires Valid()
    {
      if maxFrameBytes + 1 < RECV_LIMIT then maxFrameBytes + 1 else RECV_LIMIT
    }

    /** The most bytes the buffer ever holds. */
    function BufferLimit(): nat
      requires Valid()
    {
      (if maxFrameBytes < 3 then 3 else maxFrameBytes) + ChunkLimit()
    }
  }

  /** One connection attempt: refused, or a connection that delivers `inbound` and then ends. */
  datatype Dial = Unreachable | Reached(inbound: Bytes)

  /** What the reader can still see of the network. */
  datatype Link = Link(open: Option<Bytes>, dials: seq<Dial>)

  // ------------------------------------------------------------ specification

  function Connect(l: Link): Link {
    if l.open.Some? || l.dials == [] then l
    else match l.dials[0]
      case Unreachable => Link(None, l.dials[1..])
      case Reached(s) => Link(Some(s), l.dials[1..])
  }

  /** How one frame read of a connection shows up at the reader. */
  ghost predicate Answers(answer: ReadResult, item: Option<Item>, open: Option<Bytes>) {
    match answer
    case Closed => item == None
    case Frame(p, rest) => item == Some(Payload(p)) && open == Some(rest)
    case Refused(e, rest) => item == Some(Rejection(e)) && open == Some(rest)
  }

  /** The result of one pass of the retry loop: an answer, or nothing when the connection failed. */
  datatype Pass = Pass(item: Option<Item>, link: Link)

  function Attempt(c: Config, l: Link): Pass
    requires c.Valid()
  {
    var up := Connect(l);
    if up.open.None? then Pass(None, up)
    else match Read(c.mode, c.maxFrameBytes, up.open.value)
      case Closed => Pass(None, Link(None, up.dials))
      case Frame(p, rest) => Pass(Some(Payload(p)), Link(Some(rest), up.dials))
      case Refused(e, rest) => Pass(Some(Rejection(e)), Link(Some(rest), up.dials))
  }

  /** A pass dials when no connection is open, whether or not anything is there to be reached. */
  function Dialled(l: Link): nat {
    if l.open.None? then 1 else 0
  }

  /**
   The result of one `receive` that dialled `dials` times; `failures` passes failed and were slept
   off before the last one.
   */
  datatype Receipt = Receipt(item: Option<Item>, link: Link, failures: nat, dials: nat) {
    function DialledBefore(n: nat): Receipt {
      Receipt(item, link, failures, n + dials)
    }
  }

  /** The retry loop from pass number `attempt` on. */
  function Receive(c: Config, l: Link, attempt: nat := 0): (r: Receipt)
    requires c.Valid() && attempt <= c.reconnectAttempts
    ensures attempt <= r.failures <= c.reconnectAttempts
    decreases c.reconnectAttempts - attempt
  {
    var pass := Attempt(c, l);
    if pass.item.Some? || attempt == c.reconnectAttempts then Receipt(pass.item, pass.link, attempt, Dialled(l))
    else Receive(c, pass.link, attempt + 1).DialledBefore(Dialled(l))
  }

  /** The pause after failed attempt number `attempt`, counted from zero: it doubles each time. */
  function Delay(backoff: real, attempt: nat): real {
    if attempt == 0 then backoff else 2.0 * Delay(backoff, attempt - 1)
  }

  lemma {:induction false} DelayIsExponential(backoff: real, attempt: nat)
    ensures Delay(backoff, attempt) == backoff * Power2(attempt) as real
  {
    if attempt > 0 {
      DelayIsExponential(backoff, attempt - 1);
    }
  }

  /** The delays before the first `count` reconnects of one `receive`. */
  function Delays(backoff: real, count: nat): seq<real> {
    seq(count, i requires 0 <= i < count => Delay(backoff, i))
  }

  lemma DelaysOneMore(backoff: real, count: nat)
    ensures Delays(backoff, count + 1) == Delays(backoff, count) + [Delay(backoff, count)]
  {
  }

  function Sum(xs: seq<real>): real {
    if xs == [] then 0.0 else Sum(xs[..|xs| - 1]) + xs[|xs| - 1]
  }

  /** What `receive` hands to its caller. */
  datatype Outcome =
    | Event(payload: Bytes)            // decoded
    | PayloadRejected(payload: Bytes)  // framed correctly, refused by the decoder
    | FrameRejected(error: FrameError)
    | Exhausted                        // every attempt failed

  function Deliver(item: Option<Item>, accepts: Bytes -> bool): Outcome {
    match item
    case None => Exhausted
    case Some(Rejection(e)) => FrameRejected(e)
    case Some(Payload(p)) => if accepts(p) then Event(p) else PayloadRejected(p)
  }

  /** What an outcome says about the reply behind it. */
  predicate Tells(outcome: Outcome, reply: Option<Item>, accepts: Bytes -> bool) {
    match outcome
    case Event(p) => reply == Some(Payload(p)) && accepts(p)
    case PayloadRejected(p) => reply == Some(Payload(p)) && !accepts(p)
    case FrameRejected(e) => reply == Some(Rejection(e))
    case Exhausted => reply == None
  }

  lemma DeliverTells(item: Option<Item>, accepts: Bytes -> bool)
    ensures Tells(Deliver(item, accepts), item, accepts)
    ensures forall o :: Tells(o, item, accepts) ==> o == Deliver(item, accepts)
  {
  }

  // ------------------------------------------------------------ accounting

  function ItemsOn(c: Config, s: Bytes): seq<Item>
    requires c.Valid()
  {
    Items(c.mode, c.maxFrameBytes, s)
  }

  function DialItems(c: Config, d: Dial): seq<Item>
    requires c.Valid()
  {
    match d
    case Unreachable => []
    case Reached(s) => ItemsOn(c, s)
  }

  /** Connection by connection, everything the dials will bring. */
  function Queued(c: Config, dials: seq<Dial>): seq<Item>
    requires c.Valid()
  {
    if dials == [] then [] else DialItems(c, dials[0]) + Queued(c, dials[1..])
  }

  function OpenItems(c: Config, l: Link): seq<Item>
    requires c.Valid()
  {
    if l.open.Some? then ItemsOn(c, l.open.value) else []
  }

  /** Everything that is still to be answered. */
  function Remaining(c: Config, l: Link): seq<Item>
    requires c.Valid()
  {
    OpenItems(c, l) + Queued(c, l.dials)
  }

  /** The open connection shows an oversized newline frame. */
  predicate Stalled(c: Config, l: Link)
    requires c.Valid()
  {
    c.mode.Newline? && l.open.Some? && Stuck(c.mode, c.maxFrameBytes, l.open.value)
  }

  lemma ConnectLosesNothing(c: Config, l: Link)
    requires c.Valid()
    ensures Remaining(c, Connect(l)) == Remaining(c, l)
  {
  }

  lemma HeadOfItems(c: Config, s: Bytes)
    requires c.Valid()
    ensures var r := Read(c.mode, c.maxFrameBytes, s);
            match r
            case Closed => ItemsOn(c, s) == []
            case Frame(p, rest) => ItemsOn(c, s) == [Payload(p)] + ItemsOn(c, rest)
            case Refused(e, rest) =>
              ItemsOn(c, s) == [Rejection(e)] + if rest == s then [] else ItemsOn(c, rest)
    ensures Read(c.mode, c.maxFrameBytes, s).Refused? ==>
              var r := Read(c.mode, c.maxFrameBytes, s);
              r.rest == s <==> c.mode.Newline? && r.error == OversizedFrame
  {
    if !Read(c.mode, c.maxFrameBytes, s).Closed? {
      StandsStillOnlyWhenStuck(c.mode, c.maxFrameBytes, s);
    }
  }

  /** An answer that the reader will give again, because it stands still. */
  predicate Repeats(c: Config, item: Option<Item>) {
    c.mode.Newline? && item == Some(Rejection(OversizedFrame))
  }

  /** What an answer does to the account of remaining items. */
  ghost predicate Accounted(c: Config, before: seq<Item>, item: Option<Item>, after: Link)
    requires c.Valid()
  {
    match item
    case None => after.open == None && Remaining(c, after) == before
    case Some(x) =>
      && before != [] && before[0] == x
      && if Repeats(c, item) then Remaining(c, after) == before && Stalled(c, after)
         else Remaining(c, after) == before[1..]
  }

  lemma AttemptAccounts(c: Config, l: Link)
    requires c.Valid()
    ensures Accounted(c, Remaining(c, l), Attempt(c, l).item, Attempt(c, l).link)
  {
    var up, pass := Connect(l), Attempt(c, l);
    ConnectLosesNothing(c, l);
    if up.open.Some? {
      HeadOfItems(c, up.open.value);
      if pass.item.Some? && !Repeats(c, pass.item) {
        ConsConcat(pass.item.value, OpenItems(c, pass.link), Queued(c, up.dials));
      }
    }
  }

  /**
   A `receive` always answers with the very next item of what is still to come, whichever
   connection carries it, and takes exactly that one away; when it gives up it has taken nothing.
   */
  lemma {:induction false} ReceiveTakesTheNextItem(c: Config, l: Link, attempt: nat)
    requires c.Valid() && attempt <= c.reconnectAttempts
    ensures var r := Receive(c, l, attempt);
            Accounted(c, Remaining(c, l), r.item, r.link)
    decreases c.reconnectAttempts - attempt
  {
    AttemptAccounts(c, l);
    var pass := Attempt(c, l);
    if pass.item.None? && attempt < c.reconnectAttempts {
      ReceiveTakesTheNextItem(c, pass.link, attempt + 1);
    }
  }

  /** An oversized newline frame blocks the feed: every later `receive` repeats the refusal. */
  lemma StalledForever(c: Config, l: Link)
    requires c.Valid() && Stalled(c, l)
    ensures Receive(c, l) == Receipt(Some(Rejection(OversizedFrame)), l, 0, 0)
  {
  }

  // ------------------------------------------------------------ whole runs

  datatype Call = ReceiveCall | CloseCall

  function After(c: Config, l: Link, call: Call): Link
    requires c.Valid()
  {
    match call
    case ReceiveCall => Receive(c, l).link
    case CloseCall => l.(open := None)
  }

  /** The items a call uses up: the one it answers with, or those a `close` throws away. */
  function Consumed(c: Config, l: Link, call: Call): seq<Item>
    requires c.Valid()
  {
    match call
    case ReceiveCall =>
      var item := Receive(c, l).item;
      if item.None? || Repeats(c, item) then [] else [item.value]
    case CloseCall => OpenItems(c, l)
  }

  function AfterAll(c: Config, l: Link, calls: seq<Call>): Link
    requires c.Valid()
    decreases |calls|
  {
    if calls == [] then l else AfterAll(c, After(c, l, calls[0]), calls[1..])
  }

  function ConsumedByAll(c: Config, l: Link, calls: seq<Call>): seq<Item>
    requires c.Valid()
    decreases |calls|
  {
    if calls == [] then []
    else Consumed(c, l, calls[0]) + ConsumedByAll(c, After(c, l, calls[0]), calls[1..])
  }

  lemma CallConserves(c: Config, l: Link, call: Call)
    requires c.Valid()
    ensures Remaining(c, l) == Consumed(c, l, call) + Remaining(c, After(c, l, call))
  {
    if call.ReceiveCall? {
      ReceiveTakesTheNextItem(c, l, 0);
    }
  }

  lemma ConcatAssoc<T>(a: seq<T>, b: seq<T>, d: seq<T>)
    ensures a + (b + d) == (a + b) + d
  {
  }

  /**
   Conservation over any run of receives, reconnects and closes: the items answered or thrown away,
   in order, followed by what is still to come, are what was to come at the start.
   */
  lemma {:induction false} RunConserves(c: Config, l: Link, calls: seq<Call>)
    requires c.Valid()
    ensures Remaining(c, l) == ConsumedByAll(c, l, calls) + Remaining(c, AfterAll(c, l, calls))
    decreases |calls|
  {
    if calls != [] {
      var next := After(c, l, calls[0]);
      CallConserves(c, l, calls[0]);
      RunConserves(c, next, calls[1..]);
      ConcatAssoc(Consumed(c, l, calls[0]), ConsumedByAll(c, next, calls[1..]), Remaining(c, AfterAll(c, l, calls)));
    }
  }

  // ------------------------------------------------------------ the books of a run

  /** What becomes of an item: it is answered by a `receive`, or lost to a `close`. */
  datatype Entry = Delivery(item: Item) | Loss(item: Item)

  function Lost(items: seq<Item>): seq<Entry> {
    seq(|items|, i requires 0 <= i < |items| => Loss(items[i]))
  }

  function Entries(c: Config, l: Link, call: Call): seq<Entry>
    requires c.Valid()
  {
    match call
    case ReceiveCall => (match Receive(c, l).item case None => [] case Some(x) => [Delivery(x)])
    case CloseCall => Lost(OpenItems(c, l))
  }

  /** Everything that happens to items during a run, in order. */
  function Ledger(c: Config, l: Link, calls: seq<Call>): seq<Entry>
    requires c.Valid()
    decreases |calls|
  {
    if calls == [] then [] else Entries(c, l, calls[0]) + Ledger(c, After(c, l, calls[0]), calls[1..])
  }

  function ItemsOf(ledger: seq<Entry>): seq<Item> {
    seq(|ledger|, i requires 0 <= i < |ledger| => ledger[i].item)
  }

  function Deliveries(ledger: seq<Entry>): seq<Item> {
    if ledger == [] then []
    else (if ledger[0].Delivery? then [ledger[0].item] else []) + Deliveries(ledger[1..])
  }

  function Losses(ledger: seq<Entry>): seq<Item> {
    if ledger == [] then []
    else (if ledger[0].Loss? then [ledger[0].item] else []) + Losses(ledger[1..])
  }

  /** The answers that the caller of `receive` gets during a run; giving up is none. */
  function Delivered(c: Config, l: Link, calls: seq<Call>): seq<Item>
    requires c.Valid()
    decreases |calls|
  {
    if calls == [] then []
    else
      var item := if calls[0].ReceiveCall? then Receive(c, l).item else None;
      (if item.Some? then [item.value] else []) + Delivered(c, After(c, l, calls[0]), calls[1..])
  }

  /** What was still to come on the open connection at each `close` of a run. */
  function Discarded(c: Config, l: Link, calls: seq<Call>): seq<Item>
    requires c.Valid()
    decreases |calls|
  {
    if calls == [] then []
    else (if calls[0].CloseCall? then OpenItems(c, l) else []) + Discarded(c, After(c, l, calls[0]), calls[1..])
  }

  lemma ItemsConcat(a: seq<Entry>, b: seq<Entry>)
    ensures ItemsOf(a + b) == ItemsOf(a) + ItemsOf(b)
  {
  }

  lemma {:induction false} DeliveriesConcat(a: seq<Entry>, b: seq<Entry>)
    ensures Deliveries(a + b) == Deliveries(a) + Deliveries(b)
  {
    if a == [] {
      assert a + b == b;
    } else {
      assert (a + b)[0] == a[0] && (a + b)[1..] == a[1..] + b;
      DeliveriesConcat(a[1..], b);
    }
  }

  lemma {:induction false} LossesConcat(a: seq<Entry>, b: seq<Entry>)
    ensures Losses(a + b) == Losses(a) + Losses(b)
  {
    if a == [] {
      assert a + b == b;
    } else {
      assert (a + b)[0] == a[0] && (a + b)[1..] == a[1..] + b;
      LossesConcat(a[1..], b);
    }
  }

  lemma {:induction false} LostItems(items: seq<Item>)
    ensures ItemsOf(Lost(items)) == items && Deliveries(Lost(items)) == [] && Losses(Lost(items)) == items
  {
    if items != [] {
      assert Lost(items)[1..] == Lost(items[1..]);
      LostItems(items[1..]);
    }
  }

  /** The ledger shows the answers and the losses. */
  lemma {:induction false} LedgerSplits(c: Config, l: Link, calls: seq<Call>)
    requires c.Valid()
    ensures Deliveries(Ledger(c, l, calls)) == Delivered(c, l, calls)
    ensures Losses(Ledger(c, l, calls)) == Discarded(c, l, calls)
    decreases |calls|
  {
    if calls != [] {
      var first, later := Entries(c, l, calls[0]), Ledger(c, After(c, l, calls[0]), calls[1..]);
      LedgerSplits(c, After(c, l, calls[0]), calls[1..]);
      DeliveriesConcat(first, later);
      LossesConcat(first, later);
      LostItems(OpenItems(c, l));
    }
  }

  lemma EntriesAreConsumed(c: Config, l: Link, call: Call)
    requires c.Valid() && Rejection(OversizedFrame) !in Remaining(c, l)
    ensures ItemsOf(Entries(c, l, call)) == Consumed(c, l, call)
  {
    if call.CloseCall? {
      LostItems(OpenItems(c, l));
    } else {
      ReceiveTakesTheNextItem(c, l, 0);
    }
  }

  /** The ledger shows the items that a run has used up, in their order. */
  lemma {:induction false} LedgerIsComplete(c: Config, l: Link, calls: seq<Call>)
    requires c.Valid() && Rejection(OversizedFrame) !in Remaining(c, l)
    ensures ItemsOf(Ledger(c, l, calls)) == ConsumedByAll(c, l, calls)
    decreases |calls|
  {
    if calls != [] {
      var first, next := Entries(c, l, calls[0]), After(c, l, calls[0]);
      CallConserves(c, l, calls[0]);
      EntriesAreConsumed(c, l, calls[0]);
      LedgerIsComplete(c, next, calls[1..]);
      ItemsConcat(first, Ledger(c, next, calls[1..]));
    }
  }

  lemma OneAnswer(c: Config, l: Link)
    requires c.Valid()
    ensures ItemsOf(Entries(c, l, ReceiveCall)) == Delivered(c, l, [ReceiveCall])
  {
  }

  lemma DeliveredFirst(c: Config, l: Link, calls: seq<Call>)
    requires c.Valid() && calls != []
    ensures Delivered(c, l, calls)
            == Delivered(c, l, [calls[0]]) + Delivered(c, After(c, l, calls[0]), calls[1..])
  {
  }

  lemma {:induction false} NothingLostWithoutClose(c: Config, l: Link, calls: seq<Call>)
    requires c.Valid() && CloseCall !in calls
    ensures Discarded(c, l, calls) == [] && ItemsOf(Ledger(c, l, calls)) == Delivered(c, l, calls)
    decreases |calls|
  {
    if calls != [] {
      assert calls[0] in calls && forall call :: call in calls[1..] ==> call in calls;
      var next := After(c, l, ReceiveCall);
      NothingLostWithoutClose(c, next, calls[1..]);
      ItemsConcat(Entries(c, l, ReceiveCall), Ledger(c, next, calls[1..]));
      OneAnswer(c, l);
      DeliveredFirst(c, l, calls);
    }
  }

  // ------------------------------------------------------------ end to end

  /** A sender's host is down, or it sends frames and then dies within the next one. */
  datatype Feed = Down | Up(payloads: seq<Bytes>, cut: Bytes)

  predicate SendableFeed(c: Config, f: Feed)
    requires c.Valid()
  {
    f.Up? ==> AllRegular(c.mode, c.maxFrameBytes, f.payloads) && Read(c.mode, c.maxFrameBytes, f.cut).Closed?
  }

  predicate Sendable(c: Config, feeds: seq<Feed>)
    requires c.Valid()
  {
    forall i :: 0 <= i < |feeds| ==> SendableFeed(c, feeds[i])
  }

  function SentBy(c: Config, f: Feed): Dial
    requires c.Valid() && SendableFeed(c, f)
  {
    match f
    case Down => Unreachable
    case Up(payloads, cut) => Reached(EncodeAll(c.mode, payloads) + cut)
  }

  function Sent(c: Config, feeds: seq<Feed>): seq<Dial>
    requires c.Valid() && Sendable(c, feeds)
  {
    if feeds == [] then [] else [SentBy(c, feeds[0])] + Sent(c, feeds[1..])
  }

  /** One answer per complete frame: the payload, or the refusal of a blank one. */
  function Transmitted(mode: Mode, feeds: seq<Feed>): seq<Item> {
    if feeds == [] then []
    else (if feeds[0].Up? then AnswersTo(mode, feeds[0].payloads) else []) + Transmitted(mode, feeds[1..])
  }

  lemma FeedItems(c: Config, f: Feed)
    requires c.Valid() && SendableFeed(c, f)
    ensures DialItems(c, SentBy(c, f)) == if f.Up? then AnswersTo(c.mode, f.payloads) else []
  {
    if f.Up? {
      EncodedStreamParses(c.mode, c.maxFrameBytes, f.payloads, f.cut);
      assert AnswersTo(c.mode, f.payloads) + [] == AnswersTo(c.mode, f.payloads);
    }
  }

  lemma {:induction false} SentIsQueued(c: Config, feeds: seq<Feed>)
    requires c.Valid() && Sendable(c, feeds)
    ensures Queued(c, Sent(c, feeds)) == Transmitted(c.mode, feeds)
    ensures Rejection(OversizedFrame) !in Transmitted(c.mode, feeds)
  {
    if feeds != [] {
      FeedItems(c, feeds[0]);
      assert Sent(c, feeds)[1..] == Sent(c, feeds[1..]);
      SentIsQueued(c, feeds[1..]);
    }
  }

  /**
   End to end, with any closes: encode the frames, cut every connection anywhere in the next one,
   leave hosts down. Delivered and lost items, in their order, followed by what is still to come,
   are one answer per complete frame sent; lost is exactly what was open at each close.
   */
  lemma EveryFrameIsAccountedFor(c: Config, feeds: seq<Feed>, calls: seq<Call>)
    requires c.Valid() && Sendable(c, feeds)
    ensures var l := Link(None, Sent(c, feeds));
            && ItemsOf(Ledger(c, l, calls)) + Remaining(c, AfterAll(c, l, calls)) == Transmitted(c.mode, feeds)
            && Deliveries(Ledger(c, l, calls)) == Delivered(c, l, calls)
            && Losses(Ledger(c, l, calls)) == Discarded(c, l, calls)
  {
    var l := Link(None, Sent(c, feeds));
    SentIsQueued(c, feeds);
    assert Remaining(c, l) == Transmitted(c.mode, feeds);
    RunConserves(c, l, calls);
    LedgerSplits(c, l, calls);
    LedgerIsComplete(c, l, calls);
  }

  /**
   End to end, as long as nobody closes: what `receive` answers is the complete frames sent, in
   order, none spliced or repeated; once the senders are used up, all of them.
   */
  lemma EveryCompletePayloadArrivesOnce(c: Config, feeds: seq<Feed>, calls: seq<Call>)
    requires c.Valid() && Sendable(c, feeds) && CloseCall !in calls
    ensures Delivered(c, Link(None, Sent(c, feeds)), calls) <= Transmitted(c.mode, feeds)
    ensures AfterAll(c, Link(None, Sent(c, feeds)), calls) == Link(None, [])
            ==> Delivered(c, Link(None, Sent(c, feeds)), calls) == Transmitted(c.mode, feeds)
  {
    EveryFrameIsAccountedFor(c, feeds, calls);
    NothingLostWithoutClose(c, Link(None, Sent(c, feeds)), calls);
    assert Remaining(c, Link(None, [])) == [];
  }

  /** What the next `n` receives answer, one entry per call. */
  function Replies(c: Config, l: Link, n: nat): (items: seq<Option<Item>>)
    requires c.Valid()
    ensures |items| == n
    decreases n
  {
    if n == 0 then [] else [Receive(c, l).item] + Replies(c, Receive(c, l).link, n - 1)
  }

  /** The replies that are answers. */
  function Answered(items: seq<Option<Item>>): seq<Item> {
    if items == [] then []
    else (if items[0].Some? then [items[0].value] else []) + Answered(items[1..])
  }

  function Receives(n: nat): (calls: seq<Call>)
    ensures CloseCall !in calls
  {
    seq(n, i => ReceiveCall)
  }

  lemma {:induction false} AnswersAreDelivered(c: Config, l: Link, n: nat)
    requires c.Valid()
    ensures Answered(Replies(c, l, n)) == Delivered(c, l, Receives(n))
    decreases n
  {
    if n > 0 {
      assert Receives(n)[1..] == Receives(n - 1);
      AnswersAreDelivered(c, Receive(c, l).link, n - 1);
    }
  }

  lemma NextAnswer(c: Config, l: Link, s: Bytes)
    requires c.Valid() && Connect(l).open == Some(s)
    requires ItemsOn(c, s) != [] && Rejection(OversizedFrame) !in ItemsOn(c, s)
    ensures var r := Receive(c, l);
            r.item.Some? && r.link.open.Some? && ItemsOn(c, s) == [r.item.value] + ItemsOn(c, r.link.open.value)
  {
    HeadOfItems(c, s);
  }

  function Somes(items: seq<Item>): seq<Option<Item>> {
    seq(|items|, i requires 0 <= i < |items| => Some(items[i]))
  }

  lemma SomesCons(item: Item, rest: seq<Item>, n: nat)
    requires 0 < n <= |rest| + 1
    ensures Somes(([item] + rest)[..n]) == [Some(item)] + Somes(rest[..n - 1])
  {
    assert ([item] + rest)[..n] == [item] + rest[..n - 1];
  }

  /** As long as the connection at hand has something, every receive answers, with the items in order. */
  lemma {:induction false} OneConnectionAnswers(c: Config, l: Link, s: Bytes, items: seq<Item>, n: nat)
    requires c.Valid() && Connect(l).open == Some(s) && items == ItemsOn(c, s)
    requires n <= |items| && Rejection(OversizedFrame) !in items
    ensures Replies(c, l, n) == Somes(items[..n])
    decreases n
  {
    if n > 0 {
      NextAnswer(c, l, s);
      var item, link := Receive(c, l).item.value, Receive(c, l).link;
      var rest := ItemsOn(c, link.open.value);
      assert Rejection(OversizedFrame) !in rest;
      OneConnectionAnswers(c, link, link.open.value, rest, n - 1);
      SomesCons(item, rest, n);
    }
  }

  lemma FirstConnectionAnswers(c: Config, s: Bytes, items: seq<Item>)
    requires c.Valid() && ItemsOn(c, s) == items && Rejection(OversizedFrame) !in items
    ensures Replies(c, Link(None, [Reached(s)]), |items|) == Somes(items)
  {
    OneConnectionAnswers(c, Link(None, [Reached(s)]), s, items, |items|);
    assert items[..|items|] == items;
  }

  lemma OneFeedAnswers(c: Config, payloads: seq<Bytes>, cut: Bytes)
    requires c.Valid() && SendableFeed(c, Up(payloads, cut))
    ensures var replies := Replies(c, Link(None, [SentBy(c, Up(payloads, cut))]), |payloads|);
            forall i :: 0 <= i < |payloads| ==> replies[i] == Some(AnswerTo(c.mode, payloads[i]))
  {
    FeedItems(c, Up(payloads, cut));
    FirstConnectionAnswers(c, EncodeAll(c.mode, payloads) + cut, AnswersTo(c.mode, payloads));
  }

  // ------------------------------------------------------------ resources

  /** The open connection and the next dials, `passes` in all, bring nothing. */
  ghost predicate Barren(c: Config, l: Link, passes: int)
    requires c.Valid()
  {
    && OpenItems(c, l) == []
    && forall i :: 0 <= i < |l.dials| && i < (if l.open.Some? then passes - 1 else passes) ==>
         DialItems(c, l.dials[i]) == []
  }

  /** `receive` gives up exactly when none of the connections it may use has anything for it. */
  lemma {:induction false} GivesUpIff(c: Config, l: Link, attempt: nat)
    requires c.Valid() && attempt <= c.reconnectAttempts
    ensures Receive(c, l, attempt).item.None? <==> Barren(c, l, c.reconnectAttempts + 1 - attempt)
    ensures Receive(c, l, attempt).item.None? ==> Receive(c, l, attempt).failures == c.reconnectAttempts
    decreases c.reconnectAttempts - attempt
  {
    var pass, up := Attempt(c, l), Connect(l);
    if up.open.Some? {
      HeadOfItems(c, up.open.value);
    }
    if l.open.None? && l.dials != [] {
      assert pass.item.None? <==> DialItems(c, l.dials[0]) == [];
      assert forall i :: 1 <= i < |l.dials| ==> l.dials[i] == l.dials[1..][i - 1];
    }
    if pass.item.None? && attempt < c.reconnectAttempts {
      GivesUpIff(c, pass.link, attempt + 1);
    }
  }

  /**
   What the caller of one `receive` is told: that all attempts failed, exactly when no connection it
   may use has anything; otherwise the next item of all, the payload as an event exactly when it is accepted.
   */
  ghost predicate Received(c: Config, l: Link, accepts: Bytes -> bool, outcome: Outcome)
    requires c.Valid()
  {
    && (outcome.Exhausted? <==> Barren(c, l, c.reconnectAttempts + 1))
    && (!outcome.Exhausted? ==>
          && Remaining(c, l) != []
          && (forall p :: Remaining(c, l)[0] == Payload(p) ==>
                (outcome == Event(p) <==> accepts(p)) && (outcome == PayloadRejected(p) <==> !accepts(p)))
          && (forall e :: Remaining(c, l)[0] == Rejection(e) ==> outcome == FrameRejected(e)))
  }

  lemma ReceivedIs(c: Config, l: Link, accepts: Bytes -> bool)
    requires c.Valid()
    ensures Received(c, l, accepts, Deliver(Receive(c, l).item, accepts))
  {
    GivesUpIff(c, l, 0);
    ReceiveTakesTheNextItem(c, l, 0);
  }

  /** A pass that answers, or the last one, ends the loop; any other leaves no connection to the next. */
  lemma PassesAre(c: Config, l: Link, attempt: nat)
    requires c.Valid() && attempt <= c.reconnectAttempts
    ensures Attempt(c, l).item.Some? || attempt == c.reconnectAttempts ==>
              Receive(c, l, attempt).failures == attempt && Receive(c, l, attempt).dials == Dialled(l)
    ensures Attempt(c, l).item.None? && attempt < c.reconnectAttempts ==>
              && Attempt(c, l).link.open == None
              && Receive(c, l, attempt).failures == Receive(c, Attempt(c, l).link, attempt + 1).failures
              && Receive(c, l, attempt).dials == Dialled(l) + Receive(c, Attempt(c, l).link, attempt + 1).dials
  {
  }

  /** Every pass dials once, except the first pass of an open connection. */
  lemma {:induction false} DialsPerReceive(c: Config, l: Link, attempt: nat)
    requires c.Valid() && attempt <= c.reconnectAttempts
    ensures Receive(c, l, attempt).dials
            == Receive(c, l, attempt).failures + 1 - attempt - (if l.open.Some? then 1 else 0)
    ensures Receive(c, l, attempt).dials <= c.reconnectAttempts + 1
    decreases c.reconnectAttempts - attempt
  {
    PassesAre(c, l, attempt);
    if Attempt(c, l).item.None? && attempt < c.reconnectAttempts {
      DialsPerReceive(c, Attempt(c, l).link, attempt + 1);
    }
  }

  lemma {:induction false} TotalDelay(backoff: real, count: nat)
    ensures Sum(Delays(backoff, count)) == backoff * (Power2(count) - 1) as real
  {
    if count > 0 {
      TotalDelay(backoff, count - 1);
      DelayIsExponential(backoff, count - 1);
      assert Delays(backoff, count)[..count - 1] == Delays(backoff, count - 1);
    }
  }

  lemma MultiplyMonotone(a: real, x: real, y: real)
    requires a >= 0.0 && x <= y
    ensures a * x <= a * y
  {
  }

  lemma DelaysAreBounded(backoff: real, n: nat, r: nat)
    requires backoff >= 0.0 && n <= r
    ensures Sum(Delays(backoff, n)) <= backoff * (Power2(r) - 1) as real
    ensures n == r ==> Sum(Delays(backoff, n)) == backoff * (Power2(r) - 1) as real
  {
    TotalDelay(backoff, n);
    Power2Monotone(n, r);
    MultiplyMonotone(backoff, (Power2(n) - 1) as real, (Power2(r) - 1) as real);
  }

  function SleepBound(c: Config): real
    requires c.Valid()
  {
    c.backoff * (Power2(c.reconnectAttempts) - 1) as real
  }

  lemma FailuresAre(c: Config, l: Link)
    requires c.Valid()
    ensures var r := Receive(c, l);
            r.failures <= c.reconnectAttempts && (r.item.None? ==> r.failures == c.reconnectAttempts)
  {
    GivesUpIff(c, l, 0);
  }

  lemma SleptWithinBound(c: Config, failures: nat)
    requires c.Valid() && failures <= c.reconnectAttempts
    ensures Sum(Delays(c.backoff, failures)) <= SleepBound(c)
    ensures failures == c.reconnectAttempts ==> Sum(Delays(c.backoff, failures)) == SleepBound(c)
  {
    DelaysAreBounded(c.backoff, failures, c.reconnectAttempts);
  }

  /** One `receive` sleeps at most `backoff * (2^reconnectAttempts - 1)` in all, and just that when it gives up. */
  lemma SleepIsBounded(c: Config, l: Link)
    requires c.Valid()
    ensures Sum(Delays(c.backoff, Receive(c, l).failures)) <= SleepBound(c)
    ensures Receive(c, l).item.None? ==> Sum(Delays(c.backoff, Receive(c, l).failures)) == SleepBound(c)
  {
    FailuresAre(c, l);
    SleptWithinBound(c, Receive(c, l).failures);
  }
}
