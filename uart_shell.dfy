/**
 * The UART line assembler of the on-board computer's LoRa shell
 * (`invictus2/obc/src/lora_uart_shell.c`): the receive interrupt drains the
 * FIFO byte by byte into a 32-byte buffer, and a line ending closes the
 * buffered line with a NUL and posts the whole buffer to a 10-slot message
 * queue, dropping it when the queue is full. A line ending that arrives with
 * an empty buffer is kept as data, and bytes past the 31st of a line are
 * dropped.
 *
 * The UART driver is a collaborator: its interrupt status and the bytes its
 * FIFO yields are parameters.
 */
module UartShell {
  import opened Bytes

  const MSG_SIZE: nat := 32
  const QUEUE_SLOTS: nat := 10

  const LF: u8 := 0x0A
  const CR: u8 := 0x0D

  predicate IsLineEnd(c: u8) {
    c == LF || c == CR
  }

  /** The assembler's state: the buffer's bytes, the write position and the queued messages. */
  datatype Assembler = Assembler(buf: seq<u8>, pos: nat, queue: seq<seq<u8>>)

  /** What the interrupt keeps true between bytes: the NUL slot always fits and the queue holds at most ten full-size messages. */
  predicate Valid(a: Assembler) {
    |a.buf| == MSG_SIZE && a.pos <= MSG_SIZE - 1 && |a.queue| <= QUEUE_SLOTS
    && forall m :: m in a.queue ==> |m| == MSG_SIZE
  }

  /**
   * One byte from the FIFO: a line ending after at least one byte writes the
   * NUL, posts the buffer unless the queue is full and restarts the line;
   * any other byte is stored while fewer than 31 are buffered, and dropped
   * beyond that.
   */
  function StepByte(a: Assembler, c: u8): (r: Assembler)
    requires Valid(a)
    ensures Valid(r)
  {
    if IsLineEnd(c) && a.pos > 0 then
      var msg := a.buf[a.pos := 0];
      Assembler(msg, 0, if |a.queue| < QUEUE_SLOTS then a.queue + [msg] else a.queue)
    else if a.pos < MSG_SIZE - 1 then
      Assembler(a.buf[a.pos := c], a.pos + 1, a.queue)
    else a
  }

  /** The state after the FIFO has yielded `bytes`, one at a time. */
  function Feed(a: Assembler, bytes: seq<u8>): (r: Assembler)
    requires Valid(a)
    ensures Valid(r)
    decreases |bytes|
  {
    if bytes == [] then a else StepByte(Feed(a, bytes[..|bytes| - 1]), bytes[|bytes| - 1])
  }

  function Min(a: int, b: int): int {
    if a <= b then a else b
  }

  /**
   * Text without line endings is appended to the buffered line, up to 31
   * bytes in all; the rest of the buffer and the queue are untouched.
   */
  lemma {:induction false} FeedText(a: Assembler, text: seq<u8>)
    requires Valid(a)
    requires forall i :: 0 <= i < |text| ==> !IsLineEnd(text[i])
    ensures var r := Feed(a, text);
            var k := Min(|text|, MSG_SIZE - 1 - a.pos);
            r.pos == a.pos + k && r.queue == a.queue
            && r.buf == a.buf[..a.pos] + text[..k] + a.buf[a.pos + k..]
    decreases |text|
  {
    if text != [] {
      var init := text[..|text| - 1];
      FeedText(a, init);
      AppendText(a, Feed(a, init), init, text[|text| - 1]);
      assert init + [text[|text| - 1]] == text;
    }
  }

  /** The inductive step of FeedText: one more byte of text after `init`. */
  lemma AppendText(a: Assembler, b: Assembler, init: seq<u8>, c: u8)
    requires Valid(a) && Valid(b) && !IsLineEnd(c)
    requires var k := Min(|init|, MSG_SIZE - 1 - a.pos);
      b.pos == a.pos + k && b.queue == a.queue && b.buf == a.buf[..a.pos] + init[..k] + a.buf[a.pos + k..]
    ensures var r := StepByte(b, c);
      var k := Min(|init| + 1, MSG_SIZE - 1 - a.pos);
      r.pos == a.pos + k && r.queue == a.queue && r.buf == a.buf[..a.pos] + (init + [c])[..k] + a.buf[a.pos + k..]
  {
    var k0 := Min(|init|, MSG_SIZE - 1 - a.pos);
    if b.pos < MSG_SIZE - 1 {
      assert k0 == |init| && init[..k0] == init && (init + [c])[..k0 + 1] == init + [c];
      StoreAfter(a.buf, a.pos, init, c);
    } else {
      assert (init + [c])[..k0] == init[..k0];
    }
  }

  /** Writing `c` just after `mid` in a buffer whose prefix up to there is `pre + mid`. */
  lemma StoreAfter(buf: seq<u8>, lo: nat, mid: seq<u8>, c: u8)
    requires lo + |mid| < |buf|
    ensures (buf[..lo] + mid + buf[lo + |mid|..])[lo + |mid| := c] == buf[..lo] + (mid + [c]) + buf[lo + |mid| + 1..]
  {
    var n := lo + |mid|;
    assert buf[n..] == [buf[n]] + buf[n + 1..];
  }

  /**
   * A line of text followed by a line ending, received into an empty buffer
   * with room in the queue, posts one message: the text's first 31 bytes and
   * a NUL. The assembler is then ready for a new line.
   */
  lemma LinePosted(a: Assembler, text: seq<u8>, ending: u8)
    requires Valid(a) && a.pos == 0 && |a.queue| < QUEUE_SLOTS
    requires 0 < |text| && IsLineEnd(ending)
    requires forall i :: 0 <= i < |text| ==> !IsLineEnd(text[i])
    ensures var r := Feed(a, text + [ending]);
            var k := Min(|text|, MSG_SIZE - 1);
            r.pos == 0 && |r.queue| == |a.queue| + 1 && r.queue[..|a.queue|] == a.queue
            && r.queue[|a.queue|][..k] == text[..k] && r.queue[|a.queue|][k] == 0
  {
    assert (text + [ending])[..|text|] == text;
    FeedText(a, text);
  }

  /** A line ending that arrives with nothing buffered is stored as an ordinary byte. */
  lemma LeadingLineEndIsData(a: Assembler, c: u8)
    requires Valid(a) && a.pos == 0 && IsLineEnd(c)
    ensures StepByte(a, c) == Assembler(a.buf[0 := c], 1, a.queue)
  {
  }

  /** With the queue full, a completed line is dropped but the buffer still restarts. */
  lemma FullQueueDropsLine(a: Assembler, c: u8)
    requires Valid(a) && a.pos > 0 && |a.queue| == QUEUE_SLOTS && IsLineEnd(c)
    ensures StepByte(a, c).queue == a.queue && StepByte(a, c).pos == 0
  {
  }

  /** The receive side of the shell: `rx_buf`, `rx_buf_pos` and `uart_msgq`. */
  class LineAssembler {
    const rxBuf: array<u8>
    var rxBufPos: nat
    var queue: seq<seq<u8>>

    ghost function State(): Assembler
      reads this, rxBuf
    {
      Assembler(rxBuf[..], rxBufPos, queue)
    }

    ghost predicate Ready()
      reads this, rxBuf
    {
      Valid(State())
    }

    constructor ()
      ensures Ready() && rxBufPos == 0 && queue == [] && fresh(rxBuf)
    {
      rxBuf := new u8[MSG_SIZE](_ => 0);
      rxBufPos := 0;
      queue := [];
    }

    /**
     * `serial_cb`: nothing unless the interrupt status updated and the
     * receiver is ready; then every FIFO byte in turn, as Feed describes.
     */
    method SerialCallback(irqUpdate: bool, rxReady: bool, fifo: seq<u8>)
      requires Ready()
      modifies this, rxBuf
      ensures Ready()
      ensures !irqUpdate || !rxReady ==> State() == old(State())
      ensures irqUpdate && rxReady ==> State() == Feed(old(State()), fifo)
    {
      if !irqUpdate {
        return;
      }
      if !rxReady {
        return;
      }
      var i := 0;
      while i < |fifo|
        invariant 0 <= i <= |fifo|
        invariant Ready()
        invariant State() == Feed(old(State()), fifo[..i])
      {
        assert fifo[..i + 1][..i] == fifo[..i];
        ReceiveByte(fifo[i]);
        i := i + 1;
      }
      assert fifo[..|fifo|] == fifo;
    }

    /** One pass of `serial_cb`'s FIFO loop: the byte `c`, as StepByte describes. */
    method ReceiveByte(c: u8)
      requires Ready()
      modifies this, rxBuf
      ensures Ready()
      ensures State() == StepByte(old(State()), c)
    {
      if IsLineEnd(c) && rxBufPos > 0 {
        rxBuf[rxBufPos] := 0;
        if |queue| < QUEUE_SLOTS {
          queue := queue + [rxBuf[..]];
        }
        rxBufPos := 0;
      } else if rxBufPos < MSG_SIZE - 1 {
        rxBuf[rxBufPos] := c;
        rxBufPos := rxBufPos + 1;
      }
    }

    /** `k_msgq_get` on the consumer side: the oldest message, if any. */
    method TakeMessage() returns (msg: Option<seq<u8>>)
      requires Ready()
      modifies this
      ensures Ready()
      ensures old(queue) == [] ==> msg == None && queue == []
      ensures old(queue) != [] ==> msg == Some(old(queue)[0]) && queue == old(queue)[1..]
      ensures rxBufPos == old(rxBufPos)
    {
      if queue == [] {
        return None;
      }
      msg := Some(queue[0]);
      queue := queue[1..];
    }
  }
}
