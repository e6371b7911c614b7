/**
 The e-paper driver of epd/waveshare_driver.go as pure functions on a `Bus`:
 each operation appends the transactions it issues, consumes scripted busy-pin
 readings, and stops for good once a busy-wait outlasts the script.
 */
module Driver {
  import opened Wrappers
  import opened Wire
  import Opcodes
  import Util

  /** One scripted result of `DigitalRead` on the busy pin: Go's `(int, error)` pair. */
  datatype Sample = Sample(value: int, err: Option<string>)

  /** The busy-wait loop ends on a reading that `MustRead` turns into a nonzero value. */
  predicate Ready(s: Sample)
  {
    Util.MustRead(s.value, s.err) != 0
  }

  /**
   The hardware as the driver sees it: the transactions issued so far (their pin and
   bus events are `Trace`), the busy-pin readings still to come, and whether the
   driver is stuck in a busy-wait that those readings never release.
   */
  datatype Bus = Bus(steps: seq<Step>, script: seq<Sample>, hung: bool)

  function Trace(b: Bus): seq<Event>
  {
    Encode(b.steps)
  }

  /** Driver state: the geometry given at construction, never changed afterwards. */
  datatype Epd = Epd(width: int, height: int)
  {
    /** `Width*Height`, the number of pixels of one frame plane. */
    function Pixels(): int
    {
      width * height
    }
  }

  /** What `New` returns: the driver and an error that may be nil. */
  datatype Created = Created(epd: Epd, err: Option<string>, bus: Bus)

  /** Issues one transaction unless the driver is stuck in a busy-wait. */
  function Emit(b: Bus, s: Step): (r: Bus)
    ensures r.script == b.script && r.hung == b.hung
    ensures b.hung ==> r == b
    ensures !b.hung ==> r.steps == b.steps + [s]
  {
    if b.hung then b else b.(steps := b.steps + [s])
  }

  /** A command is one opcode byte sent with data/command low, framed by chip-select. */
  function SendCommand(b: Bus, cmd: byte): (r: Bus)
    ensures r.script == b.script && r.hung == b.hung
    ensures b.hung ==> r == b
    ensures !b.hung ==> r.steps == b.steps + [Command(cmd)]
  {
    Emit(b, Command(cmd))
  }

  /** A data transaction sends all its bytes as one burst with data/command high, framed by chip-select. */
  function SendData(b: Bus, data: seq<byte>): (r: Bus)
    ensures r.script == b.script && r.hung == b.hung
    ensures b.hung ==> r == b
    ensures !b.hung ==> r.steps == b.steps + [Data(data)]
  {
    Emit(b, Data(data))
  }

  /** `time.Sleep` for the given number of milliseconds. */
  function Hold(b: Bus, ms: nat): (r: Bus)
    ensures r.script == b.script && r.hung == b.hung
    ensures b.hung ==> r == b
    ensures !b.hung ==> r.steps == b.steps + [Pause(ms)]
  {
    Emit(b, Pause(ms))
  }

  /** The reset pulse: high 200 ms, low 2 ms, high 200 ms. */
  const ResetPulse: seq<Step> :=
    [ResetLine(High), Pause(200), ResetLine(Low), Pause(2), ResetLine(High), Pause(200)]

  /** The power setting of the init sequence: VGH/VGL = 0x07 0x07, VDH/VDL = 0x3F 0x3F. */
  const PowerUpTable: seq<Step> :=
    [Command(0x01), Data([0x07]), Data([0x07]), Data([0x3F]), Data([0x3F])]

  /**
   The settings loaded after power-on: panel 0x1F; resolution 0x03 0x20 0x01 0xE0
   (800 x 480, fixed); dual SPI off; VCOM and data interval 0x10 0x07; TCON 0x22.
   */
  const SettingsTable: seq<Step> :=
    [Command(0x00), Data([0x1F]),
     Command(0x61), Data([0x03]), Data([0x20]), Data([0x01]), Data([0xE0]),
     Command(0x15), Data([0x00]),
     Command(0x50), Data([0x10]), Data([0x07]),
     Command(0x60), Data([0x22])]

  /** The hardware reset pulse: high 200 ms, low 2 ms, high 200 ms, on the reset pin only. */
  function Reset(b: Bus): (r: Bus)
    ensures r.script == b.script && r.hung == b.hung
    ensures b.hung ==> r == b
    ensures !b.hung ==>
      r.steps == b.steps + ResetPulse
  {
    var b1 := Emit(b, ResetLine(High));
    var b2 := Hold(b1, 200);
    var b3 := Emit(b2, ResetLine(Low));
    var b4 := Hold(b3, 2);
    var b5 := Emit(b4, ResetLine(High));
    Hold(b5, 200)
  }

  /** `n` rounds of the busy-wait: a status query, then a read of the busy pin. */
  function StatusPolls(n: nat): seq<Step>
  {
    seq(2 * n, i requires 0 <= i < 2 * n => if i % 2 == 0 then Command(Opcodes.GetStatus) else BusyRead)
  }

  lemma StatusPollsCons(n: nat)
    ensures [Command(Opcodes.GetStatus), BusyRead] + StatusPolls(n) == StatusPolls(n + 1)
  {
    var s := [Command(Opcodes.GetStatus), BusyRead] + StatusPolls(n);
    forall i | 0 <= i < 2 * (n + 1)
      ensures s[i] == StatusPolls(n + 1)[i]
    {
      if 2 <= i {
        assert s[i] == StatusPolls(n)[i - 2];
        assert (i - 2) % 2 == i % 2;
      }
    }
  }

  /**
   The readings a busy-wait consumes: `n` of them, all but the last reporting busy;
   the last one reports ready, unless the script ran out first (`hung`), in which
   case every reading reported busy.
   */
  predicate PollsConsumed(script: seq<Sample>, n: int, hung: bool)
  {
    && 0 <= n <= |script|
    && (forall j :: 0 <= j < n - 1 ==> !Ready(script[j]))
    && (if hung then n == |script| && forall j :: 0 <= j < |script| ==> !Ready(script[j])
        else 0 < n && Ready(script[n - 1]))
  }

  /** The loop of `ReadBusy`: query status, read the pin, repeat while the reading is 0. */
  function Poll(b: Bus): (r: Bus)
    decreases |b.script|
    ensures |r.script| <= |b.script|
    ensures b.hung ==> r == b
    ensures !b.hung ==>
      var n := |b.script| - |r.script|;
      && PollsConsumed(b.script, n, r.hung)
      && r.script == b.script[n..]
      && r.steps == b.steps + StatusPolls(n)
  {
    if b.hung then b
    else if |b.script| == 0 then
      b.(hung := true)
    else
      var queried := SendCommand(b, Opcodes.GetStatus);
      var busy := Util.MustRead(b.script[0].value, b.script[0].err);
      var read := Bus(queried.steps + [BusyRead], b.script[1..], false);
      assert |read.script| < |b.script|;
      if busy == 0 then
        var r := Poll(read);
        PollAgain(b, read, r);
        r
      else
        PollDone(b, read);
        read
  }

  /** A ready reading ends the busy-wait after one round. */
  lemma PollDone(b: Bus, read: Bus)
    requires !b.hung && 0 < |b.script| && Ready(b.script[0])
    requires read.steps == b.steps + [Command(Opcodes.GetStatus)] + [BusyRead] && read.script == b.script[1..]
    ensures PollsConsumed(b.script, |b.script| - |read.script|, false)
    ensures read.script == b.script[|b.script| - |read.script|..]
    ensures read.steps == b.steps + StatusPolls(|b.script| - |read.script|)
  {
    StatusPollsCons(0);
    assert StatusPolls(0) == [];
  }

  /** One busy reading followed by a completed busy-wait is a busy-wait one reading longer. */
  lemma PollAgain(b: Bus, read: Bus, r: Bus)
    requires !b.hung && 0 < |b.script| && !Ready(b.script[0])
    requires read.steps == b.steps + [Command(Opcodes.GetStatus)] + [BusyRead] && read.script == b.script[1..]
    requires |r.script| <= |read.script|
    requires PollsConsumed(read.script, |read.script| - |r.script|, r.hung)
    requires r.script == read.script[|read.script| - |r.script|..]
    requires r.steps == read.steps + StatusPolls(|read.script| - |r.script|)
    ensures PollsConsumed(b.script, |b.script| - |r.script|, r.hung)
    ensures r.script == b.script[|b.script| - |r.script|..]
    ensures r.steps == b.steps + StatusPolls(|b.script| - |r.script|)
  {
    var m := |read.script| - |r.script|;
    StatusPollsCons(m);
    PrependTwo(b.steps, Command(Opcodes.GetStatus), BusyRead, StatusPolls(m));
    assert b.script[1..][m..] == b.script[m + 1..];
    PollsConsumedCons(b.script, m, r.hung);
  }

  lemma PrependTwo<T>(pre: seq<T>, x: T, y: T, rest: seq<T>)
    ensures pre + [x] + [y] + rest == pre + ([x, y] + rest)
  {
  }

  /** A busy first reading followed by `n` consumed readings is `n + 1` consumed readings. */
  lemma PollsConsumedCons(script: seq<Sample>, n: int, hung: bool)
    requires 0 < |script| && !Ready(script[0])
    requires PollsConsumed(script[1..], n, hung)
    ensures PollsConsumed(script, n + 1, hung)
  {
    forall j | 1 <= j < |script|
      ensures script[j] == script[1..][j - 1]
    {
    }
  }

  /** Blocks until the busy pin reports ready, then waits 200 ms more. */
  function ReadBusy(b: Bus): (r: Bus)
    ensures |r.script| <= |b.script|
    ensures b.hung ==> r == b
    ensures !b.hung ==>
      var n := |b.script| - |r.script|;
      && PollsConsumed(b.script, n, r.hung)
      && r.script == b.script[n..]
      && (r.hung ==> r.steps == b.steps + StatusPolls(n))
      && (!r.hung ==> r.steps == b.steps + StatusPolls(n) + [Pause(200)])
  {
    Hold(Poll(b), 200)
  }

  /** Powers the panel on and loads its settings; the geometry is stored but not sent. */
  function New(b: Bus, width: int, height: int): (r: Created)
    ensures r.err == None
    ensures r.epd.width == width && r.epd.height == height
    ensures |r.bus.script| <= |b.script|
    ensures b.hung ==> r.bus == b
    ensures !b.hung ==>
      var n := |b.script| - |r.bus.script|;
      && PollsConsumed(b.script, n, r.bus.hung)
      && r.bus.script == b.script[n..]
      && var powered := b.steps + ResetPulse + PowerUpTable + [Command(0x04)] + [Pause(100)] + StatusPolls(n);
         && (r.bus.hung ==> r.bus.steps == powered)
         && (!r.bus.hung ==> r.bus.steps == powered + [Pause(200)] + SettingsTable)
  {
    var b0 := Reset(b);
    var b1 := PowerSettings(b0);
    var b2 := SendCommand(b1, Opcodes.PowerOn);
    var b3 := Hold(b2, 100);
    var b4 := ReadBusy(b3);
    var b5 := PanelSettings(b4);
    Created(Epd(width, height), None, b5)
  }

  /** The power-setting command of `New` and its four voltage bytes, each sent as its own transaction. */
  function PowerSettings(b: Bus): (r: Bus)
    ensures r.script == b.script && r.hung == b.hung
    ensures b.hung ==> r == b
    ensures !b.hung ==>
      r.steps == b.steps + PowerUpTable
  {
    var b1 := SendCommand(b, Opcodes.PowerSetting);
    var b2 := SendData(b1, [0x07]);
    var b3 := SendData(b2, [0x07]);
    var b4 := SendData(b3, [0x3f]);
    SendData(b4, [0x3f])
  }

  /** The settings `New` loads once the panel is powered: panel, resolution, dual SPI, VCOM interval, TCON. */
  function PanelSettings(b: Bus): (r: Bus)
    ensures r.script == b.script && r.hung == b.hung
    ensures b.hung ==> r == b
    ensures !b.hung ==>
      r.steps == b.steps + SettingsTable
  {
    SplitAppend(b.steps, SettingsTable, 7);
    PanelTiming(PanelGeometry(b))
  }

  lemma SplitAppend<T>(pre: seq<T>, s: seq<T>, k: nat)
    requires k <= |s|
    ensures pre + s[..k] + s[k..] == pre + s
  {
    assert s[..k] + s[k..] == s;
  }

  /** The panel-setting and resolution commands of `New`. */
  function PanelGeometry(b: Bus): (r: Bus)
    ensures r.script == b.script && r.hung == b.hung
    ensures b.hung ==> r == b
    ensures !b.hung ==> r.steps == b.steps + SettingsTable[..7]
  {
    var b1 := SendCommand(b, Opcodes.PanelSetting);
    var b2 := SendData(b1, [0x1F]);
    var b3 := SendCommand(b2, Opcodes.ResolutionSetting);
    var b4 := SendData(b3, [0x03]);
    var b5 := SendData(b4, [0x20]);
    var b6 := SendData(b5, [0x01]);
    SendData(b6, [0xE0])
  }

  /** The dual-SPI, VCOM-interval and TCON commands of `New`. */
  function PanelTiming(b: Bus): (r: Bus)
    ensures r.script == b.script && r.hung == b.hung
    ensures b.hung ==> r == b
    ensures !b.hung ==> r.steps == b.steps + SettingsTable[7..]
  {
    var b1 := SendCommand(b, Opcodes.DualSpi);
    var b2 := SendData(b1, [0x00]);
    var b3 := SendCommand(b2, Opcodes.VcomAndDataIntervalSetting);
    var b4 := SendData(b3, [0x10]);
    var b5 := SendData(b4, [0x07]);
    var b6 := SendCommand(b5, Opcodes.TconSetting);
    SendData(b6, [0x22])
  }

  /** Go's `x / 8` on a signed integer, which truncates toward zero. */
  function QuoEight(x: int): (q: int)
    ensures 0 <= x ==> 0 <= q && 8 * q <= x < 8 * q + 8
    ensures x < 0 ==> q <= 0 && 8 * q - 8 < x <= 8 * q
  {
    if 0 <= x then x / 8 else -((-x) / 8)
  }

  /** The single-byte zero transactions of a loop that counts from 0 up to `n`. */
  function Zeros(n: int): seq<Step>
  {
    if n <= 0 then [] else seq(n, _ => Data([0x00]))
  }

  /** The counting loop of `Clear`: `n` single-byte zero data transactions, none when `n <= 0`. */
  function ZeroFill(b: Bus, n: int): (r: Bus)
    decreases n
    ensures r.script == b.script && r.hung == b.hung
    ensures b.hung ==> r == b
    ensures !b.hung ==> r.steps == b.steps + Zeros(n)
  {
    if n <= 0 then b
    else
      var r := ZeroFill(SendData(b, [0x00]), n - 1);
      assert [Data([0x00])] + Zeros(n - 1) == Zeros(n);
      r
  }

  /** Zeroes both frame planes, refreshes the panel and waits for it. */
  function Clear(e: Epd, b: Bus): (r: Bus)
    ensures |r.script| <= |b.script|
    ensures b.hung ==> r == b
    ensures !b.hung ==>
      var k := QuoEight(e.Pixels());
      var n := |b.script| - |r.script|;
      && PollsConsumed(b.script, n, r.hung)
      && r.script == b.script[n..]
      && var refreshed :=
           b.steps + [Command(0x10)] + Zeros(k) + [Command(0x13)] + Zeros(k)
           + [Command(0x12)] + [Pause(100)] + StatusPolls(n);
         && (r.hung ==> r.steps == refreshed)
         && (!r.hung ==> r.steps == refreshed + [Pause(200)])
  {
    var b1 := WritePlanes(b, QuoEight(e.Pixels()));
    var b2 := Hold(b1, 100);
    ReadBusy(b2)
  }

  /** Both frame planes zeroed with `planeBytes` single-byte transactions each, then the refresh command. */
  function WritePlanes(b: Bus, planeBytes: int): (r: Bus)
    ensures r.script == b.script && r.hung == b.hung
    ensures b.hung ==> r == b
    ensures !b.hung ==>
      r.steps == b.steps + [Command(0x10)] + Zeros(planeBytes) + [Command(0x13)] + Zeros(planeBytes) + [Command(0x12)]
  {
    var b1 := SendCommand(b, Opcodes.DisplayStartTransmission1);
    var b2 := ZeroFill(b1, planeBytes);
    var b3 := SendCommand(b2, Opcodes.DisplayStartTransmission2);
    var b4 := ZeroFill(b3, planeBytes);
    SendCommand(b4, Opcodes.DisplayRefresh)
  }

  /** Powers the panel off, waits for it, then sends it to deep sleep with the 0xA5 check byte. */
  function Sleep(b: Bus): (r: Bus)
    ensures |r.script| <= |b.script|
    ensures b.hung ==> r == b
    ensures !b.hung ==>
      var n := |b.script| - |r.script|;
      && PollsConsumed(b.script, n, r.hung)
      && r.script == b.script[n..]
      && (r.hung ==> r.steps == b.steps + [Command(0x02)] + StatusPolls(n))
      && (!r.hung ==>
            r.steps == b.steps + [Command(0x02)] + StatusPolls(n) + [Pause(200)] + [Command(0x07)] + [Data([0xA5])])
  {
    DeepSleepAfter(ReadBusy(SendCommand(b, Opcodes.PowerOff)))
  }

  /** The deep-sleep command and its 0xA5 check byte. */
  function DeepSleepAfter(b: Bus): (r: Bus)
    ensures r.script == b.script && r.hung == b.hung
    ensures b.hung ==> r == b
    ensures !b.hung ==> r.steps == b.steps + [Command(0x07)] + [Data([0xA5])]
  {
    SendData(SendCommand(b, Opcodes.DeepSleep), [0xA5])
  }
}
