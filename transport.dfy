/**
 * The I2C character device as the driver sees it.
 *
 * Every controller transfer is one call to write(): a two-byte command
 * frame (control byte 0x00, then the command) or a data frame (control byte
 * 0x40, then the payload). The device is modelled as an append-only log of
 * the frames handed to write(), together with an oracle that decides, by
 * position in the log, whether that write moved every byte. A short write
 * and an error return are the same failure to the driver.
 */
module Transport {
  import opened Constants

  type Frame = seq<Byte>

  /** The control byte that marks a command frame. */
  const COMMAND_MODE: Byte := 0x00
  /** The control byte that marks a data frame. */
  const DATA_MODE: Byte := 0x40

  /** What one frame carries to the controller. */
  datatype Message = Command(cmd: Byte) | Data(payload: seq<Byte>)

  datatype Option<T> = None | Some(value: T)

  /** The bytes ssd1306_command and ssd1306_data hand to write(). */
  function Encode(m: Message): (f: Frame)
    ensures |f| >= 1 && f[0] == (if m.Command? then COMMAND_MODE else DATA_MODE)
    ensures m.Command? ==> |f| == 2
    ensures m.Data? ==> f[1..] == m.payload
  {
    match m
    case Command(c) => [COMMAND_MODE, c]
    case Data(p) => [DATA_MODE] + p
  }

  /** How the controller reads a frame back: by its control byte. */
  function Decode(f: Frame): Option<Message>
  {
    if |f| == 2 && f[0] == COMMAND_MODE then Some(Command(f[1]))
    else if |f| >= 1 && f[0] == DATA_MODE then Some(Data(f[1..]))
    else None
  }

  /** Every frame the driver sends is understood as the message it was built from. */
  lemma DecodeEncode(m: Message)
    ensures Decode(Encode(m)) == Some(m)
  {
  }

  /** A frame that decodes is exactly the encoding of what it decodes to. */
  lemma EncodeDecode(f: Frame)
    ensures Decode(f).Some? ==> Encode(Decode(f).value) == f
  {
    if |f| >= 1 && f[0] == DATA_MODE {
      assert [DATA_MODE] + f[1..] == f;
    }
  }

  function CommandFrame(c: Byte): Frame
  {
    Encode(Command(c))
  }

  function DataFrame(payload: seq<Byte>): Frame
  {
    Encode(Data(payload))
  }

  /** One command frame per command byte, in order. */
  function CommandFrames(cs: seq<Byte>): (fs: seq<Frame>)
    ensures |fs| == |cs|
    ensures forall k :: 0 <= k < |cs| ==> Decode(fs[k]) == Some(Command(cs[k]))
  {
    seq(|cs|, k requires 0 <= k < |cs| => CommandFrame(cs[k]))
  }

  /** The log after a chain of writes, and whether every write of the chain succeeded. */
  type Link = (seq<Frame>, bool)

  /**
   * The effect of a chain of writes that stops at the first failure, as
   * every command sequence of the driver does: the frames are written in
   * order, the first failing write is still logged, and nothing after it is
   * attempted. Returns the new log and whether every write succeeded.
   */
  function Transmit(fails: nat -> bool, log: seq<Frame>, frames: seq<Frame>): (r: Link)
    ensures |log| <= |r.0| <= |log| + |frames|
    ensures r.0 == log + frames[..|r.0| - |log|]
    ensures r.1 ==> r.0 == log + frames
    ensures !r.1 ==> |r.0| > |log| && fails(|r.0| - 1)
    ensures forall n :: |log| <= n < |r.0| - (if r.1 then 0 else 1) ==> !fails(n)
    decreases |frames|
  {
    if frames == [] then (log, true)
    else if fails(|log|) then (log + [frames[0]], false)
    else Transmit(fails, log + [frames[0]], frames[1..])
  }

  /** Transmitting nothing changes nothing and succeeds. */
  lemma TransmitNothing(fails: nat -> bool, log: seq<Frame>)
    ensures Transmit(fails, log, []) == (log, true)
  {
  }

  /** When no write of the chain fails, every frame is logged and the chain succeeds. */
  lemma {:induction false} TransmitAllSucceed(fails: nat -> bool, log: seq<Frame>, frames: seq<Frame>)
    requires forall n :: |log| <= n < |log| + |frames| ==> !fails(n)
    ensures Transmit(fails, log, frames) == (log + frames, true)
    decreases |frames|
  {
    if frames != [] {
      TransmitAllSucceed(fails, log + [frames[0]], frames[1..]);
      assert log + [frames[0]] + frames[1..] == log + frames;
    }
  }

  /**
   * When write number k of the chain is the first to fail, the log ends
   * with frames[..k + 1] (the failing frame included) and the chain fails.
   */
  lemma {:induction false} TransmitStopsAtFirstFailure(fails: nat -> bool, log: seq<Frame>, frames: seq<Frame>, k: nat)
    requires k < |frames| && fails(|log| + k)
    requires forall n :: |log| <= n < |log| + k ==> !fails(n)
    ensures Transmit(fails, log, frames) == (log + frames[..k + 1], false)
    decreases k
  {
    if k == 0 {
      assert frames[..1] == [frames[0]];
    } else {
      assert !fails(|log|);
      TransmitStopsAtFirstFailure(fails, log + [frames[0]], frames[1..], k - 1);
      assert log + [frames[0]] + frames[1..][..k] == log + frames[..k + 1];
    }
  }

  /** A chain of two parts behaves as the first part, then (if it succeeded) the second. */
  lemma {:induction false} TransmitAppend(fails: nat -> bool, log: seq<Frame>, a: seq<Frame>, b: seq<Frame>)
    ensures Transmit(fails, log, a + b) ==
      var first := Transmit(fails, log, a);
      if first.1 then Transmit(fails, first.0, b) else first
    decreases |a|
  {
    if a == [] {
      assert a + b == b;
    } else if !fails(|log|) {
      assert (a + b)[1..] == a[1..] + b;
      TransmitAppend(fails, log + [a[0]], a[1..], b);
    }
  }

  /** Frames of a concatenation of command lists are the concatenation of their frames. */
  lemma CommandFramesAppend(a: seq<Byte>, b: seq<Byte>)
    ensures CommandFrames(a + b) == CommandFrames(a) + CommandFrames(b)
  {
  }

  /**
   * Sending the commands cs[k..] one frame at a time, stopping at the first
   * failed write: the bridge between a chain written out command by command
   * and Transmit over its list of frames.
   */
  function SendFrom(fails: nat -> bool, log: seq<Frame>, cs: seq<Byte>, k: nat): Link
    decreases |cs| - k
  {
    if k >= |cs| then (log, true)
    else if fails(|log|) then (log + [CommandFrame(cs[k])], false)
    else SendFrom(fails, log + [CommandFrame(cs[k])], cs, k + 1)
  }

  lemma {:induction false} SendFromIsTransmit(fails: nat -> bool, log: seq<Frame>, cs: seq<Byte>, k: nat)
    requires k <= |cs|
    ensures SendFrom(fails, log, cs, k) == Transmit(fails, log, CommandFrames(cs)[k..])
    decreases |cs| - k
  {
    if k < |cs| {
      var fr := CommandFrames(cs);
      assert fr[k..][0] == CommandFrame(cs[k]);
      assert fr[k..][1..] == fr[k + 1..];
      SendFromIsTransmit(fails, log + [CommandFrame(cs[k])], cs, k + 1);
    }
  }

  /**
   * The file descriptor of the I2C adapter (`i2c_fd`). `openFails(n)` and
   * `bindFails(n)` are the environment's answers to the n-th open() on
   * this adapter (counting from 0) and to the ioctl(I2C_SLAVE) on the
   * descriptor it returned; `fails(n)` answers the n-th write(). `opens`
   * counts the open() calls made so far.
   */
  class Bus {
    const openFails: nat -> bool
    const bindFails: nat -> bool
    const fails: nat -> bool
    var isOpen: bool
    var opens: nat
    var address: int
    var log: seq<Frame>

    constructor(openFails: nat -> bool, bindFails: nat -> bool, fails: nat -> bool)
      ensures this.openFails == openFails && this.bindFails == bindFails && this.fails == fails
      ensures !isOpen && opens == 0 && log == []
    {
      this.openFails := openFails;
      this.bindFails := bindFails;
      this.fails := fails;
      isOpen := false;
      opens := 0;
      address := -1;
      log := [];
    }

    /** open("/dev/i2c-N", O_RDWR). */
    method Open() returns (ok: bool)
      requires !isOpen
      modifies this
      ensures ok == !openFails(old(opens)) && isOpen == ok && opens == old(opens) + 1
      ensures log == old(log) && address == old(address)
    {
      ok := !openFails(opens);
      isOpen := ok;
      opens := opens + 1;
    }

    /** ioctl(fd, I2C_SLAVE, addr): selects the peripheral every later write goes to. */
    method Bind(addr: int) returns (ok: bool)
      requires isOpen && opens > 0
      modifies this
      ensures opens == old(opens) && ok == !bindFails(opens - 1) && isOpen && log == old(log)
      ensures address == if ok then addr else old(address)
    {
      ok := !bindFails(opens - 1);
      if ok {
        address := addr;
      }
    }

    /** write(fd, frame, |frame|) == |frame|. The frame is logged whether or not the write succeeds. */
    method Write(frame: Frame) returns (ok: bool)
      requires isOpen
      modifies this
      ensures ok == !fails(|old(log)|)
      ensures log == old(log) + [frame]
      ensures isOpen && address == old(address) && opens == old(opens)
    {
      ok := !fails(|log|);
      log := log + [frame];
    }

    /** close(fd). */
    method Close()
      requires isOpen
      modifies this
      ensures !isOpen && log == old(log) && address == old(address) && opens == old(opens)
    {
      isOpen := false;
    }
  }
}
