/**
 Sample accounting of the source (aoo/src/source.cpp), over `real`: the audio thread counts the
 samples it has processed and moves them through the resampler into the audio queue, or turns
 them into xruns; the send thread takes blocks and xruns out again and advances the stream time.
 The two threads interleave at their shared variables.

 add_xrun() makes two accesses: it raises xrunblocks_, then it counts the samples. In between the
 send thread may already send them. `process_samples_` is a plain integer, so whoever reports an
 xrun does so on the audio thread.
 */
module StreamTime {
  /**
   `ratio` is the stream's sample rate over ours, `blockSize` the stream's block size, `ownBlock`
   ours, `latency` the silence that the resampler starts with. The source sets the resampler's
   rate only in setup(), so a stream block always takes blockSize / ratio samples out of it.
   */
  datatype Config = Config(ratio: real, blockSize: nat, ownBlock: nat, latency: real)

  predicate ValidConfig(c: Config) { c.ratio > 0.0 && c.blockSize > 0 && c.ownBlock > 0 && c.latency >= 0.0 }

  /** Our samples in a stream block. */
  function Span(c: Config): real
    requires ValidConfig(c)
  {
    c.blockSize as real / c.ratio
  }

  /**
   `inHand` are samples that process() has counted and not yet stored; `balance` is the content of
   the resampler; `sending` means that the stream time already includes the block at the front of
   the queue; `held` is what send_xruns() has taken out of `xruns`. `owed` and `extra` are samples
   that add_xrun() has turned into xruns and not counted yet: `owed` for a report, which has not
   been counted before, `extra` after an overflow, where process() has counted them already.
   */
  datatype State = State(
    process: real, stream: real, inHand: real, balance: real, queue: nat, sending: bool, xruns: real, held: real,
    owed: real, extra: real)

  datatype Event =
    | Process(n: nat)   // process(): count the samples
    | Enqueue           // bypass: the samples are a block
    | Resample          // the resampler takes the samples
    | Drain             // a block from the resampler to the queue
    | Overflow          // no room: add_xrun() raises the xruns
    | Report(n: nat)    // handle_xrun(), or the lock was not available: add_xrun() raises the xruns
    | Count             // add_xrun() counts the samples, after an overflow for the second time
    | TakeXruns         // send_xruns(): exchange
    | SendXruns         // send_xruns(): whole blocks go out, the remainder goes back
    | SendBlock         // send_data(): advance the stream time
    | Commit            // send_data(): release the block
    | ResetBuffers
    | Start

  function Init(c: Config): State { State(0.0, 0.0, 0.0, c.latency, 0, false, 0.0, 0.0, 0.0, 0.0) }

  /** Stream blocks per own block. */
  function Convert(c: Config): real
    requires ValidConfig(c)
  {
    c.ratio * c.ownBlock as real / c.blockSize as real
  }

  /** send_xruns() does nothing up to half a block. */
  const XRUN_THRESHOLD: real := 0.5

  /** XRUN_FLOOR: whole stream blocks in a number of own blocks. */
  function WholeBlocks(c: Config, xruns: real): int
    requires ValidConfig(c)
  {
    (xruns * Convert(c)).Floor
  }

  /** What those whole stream blocks are in own blocks. */
  function Sent(c: Config, xruns: real): real
    requires ValidConfig(c)
  {
    ConvertPositive(c);
    WholeBlocks(c, xruns) as real / Convert(c)
  }

  /** Blocks of our own size in samples, and back. */
  function Samples(blocks: real, size: nat): real { blocks * size as real }

  function InBlocks(n: real, size: nat): real
    requires size > 0
  {
    n / size as real
  }

  /** The audio thread is between two calls. */
  predicate Between(s: State) { s.inHand == 0.0 && s.owed == 0.0 && s.extra == 0.0 }

  predicate Enabled(s: State, c: Config, e: Event)
    requires ValidConfig(c)
  {
    match e
    case Process(n) => Between(s)
    case Enqueue => s.inHand == Span(c) // blocks have the same size in both worlds
    case Resample => s.inHand > 0.0
    case Drain => s.balance - c.latency >= Span(c)
    case Overflow => s.inHand > 0.0
    case Report(n) => Between(s)
    case Count => s.owed > 0.0 || s.extra > 0.0
    // the threshold is checked before the lock is taken, so a new stream may have started since
    case TakeXruns => s.xruns > 0.0 && s.held == 0.0 && !s.sending
    case SendXruns => s.held > 0.0
    case SendBlock => s.queue > 0 && !s.sending && s.held == 0.0
    case Commit => s.sending && s.queue > 0
    // these take the writer lock; a report does not hold the lock, process() and send() do
    case ResetBuffers => s.inHand == 0.0 && s.extra == 0.0 && !s.sending && s.held == 0.0
    case Start => Between(s) && !s.sending && s.held == 0.0
  }

  function Apply(s: State, c: Config, e: Event): State
    requires ValidConfig(c) && Enabled(s, c, e)
  {
    match e
    case Process(n) => s.(process := s.process + n as real, inHand := n as real)
    case Enqueue => s.(queue := s.queue + 1, inHand := 0.0)
    case Resample => s.(balance := s.balance + s.inHand, inHand := 0.0)
    case Drain => s.(balance := s.balance - Span(c), queue := s.queue + 1)
    case Overflow => s.(xruns := s.xruns + InBlocks(s.inHand, c.ownBlock), inHand := 0.0, extra := s.inHand)
    case Report(n) => s.(xruns := s.xruns + InBlocks(n as real, c.ownBlock), owed := n as real)
    case Count => s.(process := s.process + s.owed + s.extra, owed := 0.0, extra := 0.0)
    case TakeXruns => s.(held := s.xruns, xruns := 0.0)
    case SendXruns =>
      var sent := Sent(c, s.held);
      s.(xruns := s.xruns - (sent - s.held), stream := s.stream + Samples(sent, c.ownBlock), held := 0.0)
    case SendBlock => s.(stream := s.stream + Span(c), sending := true)
    case Commit => s.(queue := s.queue - 1, sending := false)
    case ResetBuffers => s.(balance := c.latency, queue := 0)
    case Start => Init(c)
  }

  // ---------------------------------------------------------------- accounting

  /** Blocks in the queue whose time has not been sent yet. */
  function Waiting(s: State): int { s.queue - (if s.sending then 1 else 0) }

  function Blocks(n: int, span: real): real { n as real * span }

  /** Everything that the stream time has already covered or will cover later. */
  function Accounted(s: State, c: Config): real
    requires ValidConfig(c)
  {
    s.stream + s.inHand + (s.balance - c.latency) + Blocks(Waiting(s), Span(c)) + Samples(s.xruns + s.held, c.ownBlock)
  }

  ghost predicate Bounds(s: State, c: Config)
    requires ValidConfig(c)
  {
    s.inHand >= 0.0 && s.balance >= c.latency && Waiting(s) >= 0 && s.xruns >= 0.0 && s.held >= 0.0 && s.owed >= 0.0 && s.extra >= 0.0
  }

  ghost predicate Inv(s: State, c: Config)
    requires ValidConfig(c)
  {
    Bounds(s, c) && Accounted(s, c) <= s.process + s.owed
  }

  lemma ConvertPositive(c: Config)
    requires ValidConfig(c)
    ensures Convert(c) > 0.0
  {
    assert c.ratio * c.ownBlock as real > 0.0;
  }

  lemma SpanPositive(c: Config)
    requires ValidConfig(c)
    ensures Span(c) > 0.0
  {
  }

  lemma BlocksStep(n: int, span: real)
    ensures Blocks(n + 1, span) == Blocks(n, span) + span && Blocks(0, span) == 0.0
    ensures span > 0.0 && n >= 0 ==> Blocks(n, span) >= 0.0
  {
  }

  lemma SamplesAdd(x: real, y: real, size: nat)
    ensures Samples(x + y, size) == Samples(x, size) + Samples(y, size)
    ensures x >= 0.0 ==> Samples(x, size) >= 0.0
    ensures Samples(0.0, size) == 0.0
  {
  }

  lemma SamplesQuotient(n: real, size: nat)
    requires size > 0
    ensures Samples(InBlocks(n, size), size) == n && (n >= 0.0 ==> InBlocks(n, size) >= 0.0)
  {
  }

  /** Rounding down never sends more than there is, and less than one stream block is carried over. */
  lemma SentAtMost(c: Config, x: real)
    requires ValidConfig(c) && x >= 0.0
    ensures 0.0 <= Sent(c, x) <= x
    ensures (x - Sent(c, x)) * Convert(c) < 1.0
  {
    ConvertPositive(c);
    var k, y := Convert(c), x * Convert(c);
    Quotient(x, k, y.Floor as real);
  }

  lemma Ordered(a: real, b: real, k: real)
    requires k > 0.0
    ensures a < b ==> a * k < b * k
  {
    assert (b - a) * k == b * k - a * k;
  }

  lemma Quotient(x: real, k: real, w: real)
    requires k > 0.0 && x >= 0.0 && 0.0 <= w <= x * k && x * k < w + 1.0
    ensures 0.0 <= w / k <= x && (x - w / k) * k < 1.0
  {
    var q := w / k;
    assert q * k == w;
    Ordered(x, q, k);
    Ordered(q, 0.0, k);
    assert (x - q) * k == x * k - q * k;
  }

  // ---------------------------------------------------------------- steps and runs

  /** What a step adds to the processed time beyond what it accounts for. */
  ghost function Surplus(s: State, c: Config, e: Event): real
    requires ValidConfig(c)
  {
    match e
    case Count => s.extra
    case ResetBuffers => (s.balance - c.latency) + Blocks(Waiting(s), Span(c))
    case _ => 0.0
  }

  /**
   Conservation: within a stream every step changes the processed time, together with what is owed
   to it, by exactly what it accounts for, except that the samples of an overflow are counted a
   second time and a reset of the buffers drops some.
   */
  lemma StepConserves(s: State, c: Config, e: Event)
    requires ValidConfig(c) && Bounds(s, c) && Enabled(s, c, e) && !e.Start?
    ensures var t := Apply(s, c, e);
            && Bounds(t, c)
            && t.process + t.owed - Accounted(t, c) == s.process + s.owed - Accounted(s, c) + Surplus(s, c, e)
            && Surplus(s, c, e) >= 0.0
  {
    SpanPositive(c);
    BlocksStep(Waiting(s), Span(c));
    BlocksStep(Waiting(s) - 1, Span(c));
    hide Span, Convert, Blocks, Samples, InBlocks, Sent;
    match e {
      case Overflow => XrunsGrow(s, s.inHand, c.ownBlock);
      case Report(n) => XrunsGrow(s, n as real, c.ownBlock);
      case SendXruns =>
        SentAtMost(c, s.held);
        var sent := Sent(c, s.held);
        SamplesAdd(s.xruns + s.held - sent, sent, c.ownBlock);
      case _ =>
    }
  }

  lemma XrunsGrow(s: State, n: real, size: nat)
    requires size > 0 && n >= 0.0
    ensures InBlocks(n, size) >= 0.0
    ensures Samples(s.xruns + InBlocks(n, size) + s.held, size) == Samples(s.xruns + s.held, size) + n
  {
    SamplesQuotient(n, size);
    hide Samples, InBlocks;
    SamplesAdd(s.xruns + s.held, InBlocks(n, size), size);
    assert s.xruns + s.held + InBlocks(n, size) == s.xruns + InBlocks(n, size) + s.held;
  }

  lemma StartIsAccounted(c: Config)
    requires ValidConfig(c)
    ensures Inv(Init(c), c) && Init(c).process == Accounted(Init(c), c)
  {
    BlocksStep(0, Span(c));
    SamplesAdd(0.0, 0.0, c.ownBlock);
  }

  ghost predicate Run(ss: seq<State>, es: seq<Event>, c: Config)
    requires ValidConfig(c)
  {
    && |ss| == |es| + 1 && ss[0] == Init(c)
    && forall i | 0 <= i < |es| :: Enabled(ss[i], c, es[i]) && ss[i + 1] == Apply(ss[i], c, es[i])
  }

  lemma {:induction false} AlwaysInv(ss: seq<State>, es: seq<Event>, c: Config, i: nat)
    requires ValidConfig(c) && Run(ss, es, c) && i < |ss|
    ensures Inv(ss[i], c)
  {
    if i == 0 {
      StartIsAccounted(c);
    } else {
      AlwaysInv(ss, es, c, i - 1);
      hide Accounted;
      if es[i - 1].Start? {
        StartIsAccounted(c);
      } else {
        StepConserves(ss[i - 1], c, es[i - 1]);
      }
    }
  }

  /** In every interleaving the lead of the stream time is at most what a report still has to count. */
  lemma LeadIsAtMostOwed(ss: seq<State>, es: seq<Event>, c: Config, i: nat)
    requires ValidConfig(c) && Run(ss, es, c) && i < |ss|
    ensures ss[i].stream <= ss[i].process + ss[i].owed
  {
    AlwaysInv(ss, es, c, i);
    SpanPositive(c);
    BlocksStep(Waiting(ss[i]), Span(c));
    SamplesAdd(ss[i].xruns + ss[i].held, 0.0, c.ownBlock);
    hide Span, Blocks, Samples, Run;
  }

  /**
   The stream time runs ahead of the processed time only while a report of an xrun is between its
   two accesses; in particular never when the audio thread is between two calls, and never in a
   run without reports.
   */
  lemma StreamNeverAhead(ss: seq<State>, es: seq<Event>, c: Config, i: nat)
    requires ValidConfig(c) && Run(ss, es, c) && i < |ss|
    ensures ss[i].stream > ss[i].process ==> ss[i].owed > 0.0
    ensures Between(ss[i]) ==> ss[i].stream <= ss[i].process
    ensures (forall k | 0 <= k < i :: !es[k].Report?) ==> ss[i].stream <= ss[i].process
  {
    LeadIsAtMostOwed(ss, es, c, i);
    if forall k | 0 <= k < i :: !es[k].Report? {
      NothingOwed(ss, es, c, i);
    }
  }

  lemma {:induction false} NothingOwed(ss: seq<State>, es: seq<Event>, c: Config, i: nat)
    requires ValidConfig(c) && Run(ss, es, c) && i < |ss| && forall k | 0 <= k < i :: !es[k].Report?
    ensures ss[i].owed == 0.0
  {
    hide Span, Sent, Samples, InBlocks;
    if i > 0 {
      NothingOwed(ss, es, c, i - 1);
    }
  }

  /** A report, and the send thread coming in before the samples have been counted. */
  function RacedRun(c: Config, n: nat): (ss: seq<State>)
    requires ValidConfig(c) && n > 0
    ensures |ss| == 4
  {
    var x := InBlocks(n as real, c.ownBlock);
    var s0 := Init(c);
    var s1 := s0.(xruns := x, owed := n as real);
    var s2 := s1.(held := x, xruns := 0.0);
    [s0, s1, s2, s2.(xruns := x - Sent(c, x), stream := Samples(Sent(c, x), c.ownBlock), held := 0.0)]
  }

  /**
   So the stream time can run ahead: with enough samples for send_xruns() to look at, it does so
   in this run if and only if they make at least one block of the stream.
   */
  lemma ReportRacesSend(c: Config, n: nat)
    requires ValidConfig(c) && n > 0 && InBlocks(n as real, c.ownBlock) > XRUN_THRESHOLD
    ensures Run(RacedRun(c, n), [Report(n), TakeXruns, SendXruns], c)
    ensures var s := RacedRun(c, n)[3];
            && s.process == 0.0 && s.owed == n as real
            && (s.stream > s.process <==> WholeBlocks(c, InBlocks(n as real, c.ownBlock)) >= 1)
  {
    var x := InBlocks(n as real, c.ownBlock);
    InBlocksPositive(n, c.ownBlock);
    SentAtMost(c, x);
    SentPositive(c, x);
    SamplesAdd(Sent(c, x), 0.0, c.ownBlock);
    SamplesPositive(Sent(c, x), c.ownBlock);
    hide Span, Sent, Samples, InBlocks, WholeBlocks;
    assert 0.0 + x == x && 0.0 - (Sent(c, x) - x) == x - Sent(c, x);
  }

  lemma InBlocksPositive(n: nat, size: nat)
    requires n > 0 && size > 0
    ensures InBlocks(n as real, size) > 0.0
  {
  }

  lemma SamplesPositive(x: real, size: nat)
    requires size > 0
    ensures x > 0.0 ==> Samples(x, size) > 0.0
    ensures x == 0.0 ==> Samples(x, size) == 0.0
  {
  }

  lemma SentPositive(c: Config, x: real)
    requires ValidConfig(c) && x >= 0.0
    ensures Sent(c, x) > 0.0 <==> WholeBlocks(c, x) >= 1
    ensures WholeBlocks(c, x) == 0 ==> Sent(c, x) == 0.0
  {
    ConvertPositive(c);
    var k, w := Convert(c), WholeBlocks(c, x) as real;
    var q := w / k;
    assert q * k == w;
    Ordered(0.0, q, k);
    Ordered(q, 0.0, k);
  }

  /** As long as nothing has overflowed or been reset, the account balances exactly. */
  lemma {:induction false} ExactUnlessOverflow(ss: seq<State>, es: seq<Event>, c: Config, i: nat)
    requires ValidConfig(c) && Run(ss, es, c) && i < |ss|
    requires forall k | 0 <= k < i :: !es[k].Overflow? && !es[k].ResetBuffers?
    ensures ss[i].process + ss[i].owed == Accounted(ss[i], c) && ss[i].extra == 0.0
  {
    if i == 0 {
      StartIsAccounted(c);
    } else {
      ExactUnlessOverflow(ss, es, c, i - 1);
      AlwaysInv(ss, es, c, i - 1);
      hide Accounted;
      if es[i - 1].Start? {
        StartIsAccounted(c);
      } else {
        StepConserves(ss[i - 1], c, es[i - 1]);
      }
    }
  }
}
