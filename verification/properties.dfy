/**
 Properties of the driver model that relate several calls or two views of the
 same trace: the pin-level framing of each call, the opcode and data-byte order
 of the lifecycle sequences, the byte count of a clear, and the busy-wait
 discipline.
 */
module DriverProperties {
  import opened Wrappers
  import opened Wire
  import opened Driver
  import Opcodes

  // ---- Framing ------------------------------------------------------------

  lemma EncodeOne(s: Step)
    ensures Encode([s]) == Frame(s)
  {
    assert [s][1..] == [];
  }

  /** A command drives data/command low, selects the chip, writes the opcode alone, and deselects. */
  lemma SendCommandFraming(b: Bus, cmd: byte)
    requires !b.hung
    ensures Trace(SendCommand(b, cmd)) ==
            Trace(b) + [PinWrite(DcPin, Low), PinWrite(CsPin, Low), SpiWrite([cmd]), PinWrite(CsPin, High)]
    ensures LastChipSelect(Trace(SendCommand(b, cmd))) == Some(High)
  {
    EncodeAppend(b.steps, [Command(cmd)]);
    EncodeOne(Command(cmd));
  }

  /** Data drives data/command high, selects the chip, writes the bytes unchanged in one burst, and deselects. */
  lemma SendDataFraming(b: Bus, data: seq<byte>)
    requires !b.hung
    ensures Trace(SendData(b, data)) ==
            Trace(b) + [PinWrite(DcPin, High), PinWrite(CsPin, Low), SpiWrite(data), PinWrite(CsPin, High)]
    ensures LastChipSelect(Trace(SendData(b, data))) == Some(High)
  {
    EncodeAppend(b.steps, [Data(data)]);
    EncodeOne(Data(data));
  }

  /** The reset pulse on the wire: only the reset pin moves, with the 200/2/200 ms holds. */
  lemma ResetFraming(b: Bus)
    requires !b.hung
    ensures Trace(Reset(b)) ==
            Trace(b) + [PinWrite(ResetPin, High), Delay(200), PinWrite(ResetPin, Low), Delay(2),
                        PinWrite(ResetPin, High), Delay(200)]
    ensures forall i :: |Trace(b)| <= i < |Trace(Reset(b))| ==>
              !Trace(Reset(b))[i].SpiWrite? && (Trace(Reset(b))[i].PinWrite? ==> Trace(Reset(b))[i].pin == ResetPin)
  {
    var pulse := [PinWrite(ResetPin, High), Delay(200), PinWrite(ResetPin, Low), Delay(2),
                  PinWrite(ResetPin, High), Delay(200)];
    EncodeAppend(b.steps, ResetPulse);
    EncodeResetPulse(pulse);
    ResetPinOnly(Trace(b), pulse);
  }

  lemma ResetPinOnly(pre: seq<Event>, pulse: seq<Event>)
    requires forall e | e in pulse :: !e.SpiWrite? && (e.PinWrite? ==> e.pin == ResetPin)
    ensures forall i :: |pre| <= i < |pre + pulse| ==>
              !(pre + pulse)[i].SpiWrite? && ((pre + pulse)[i].PinWrite? ==> (pre + pulse)[i].pin == ResetPin)
  {
    forall i | |pre| <= i < |pre + pulse|
      ensures !(pre + pulse)[i].SpiWrite? && ((pre + pulse)[i].PinWrite? ==> (pre + pulse)[i].pin == ResetPin)
    {
      assert (pre + pulse)[i] == pulse[i - |pre|];
    }
  }

  /** The pulse's events are passed in as a parameter so that callers compare against a name, not a rebuilt literal. */
  lemma EncodeResetPulse(pulse: seq<Event>)
    requires pulse == [PinWrite(ResetPin, High), Delay(200), PinWrite(ResetPin, Low), Delay(2),
                       PinWrite(ResetPin, High), Delay(200)]
    ensures Encode(ResetPulse) == pulse
  {
  }

  /** Once deep sleep is entered nothing follows on the wire: the trace ends with the 0x07 command and its 0xA5 byte. */
  lemma SleepEndsWithDeepSleep(b: Bus)
    requires !b.hung && !Sleep(b).hung
    ensures var t := Trace(Sleep(b));
            8 <= |t| &&
            t[|t| - 8..] == [PinWrite(DcPin, Low), PinWrite(CsPin, Low), SpiWrite([0x07]), PinWrite(CsPin, High),
                             PinWrite(DcPin, High), PinWrite(CsPin, Low), SpiWrite([0xA5]), PinWrite(CsPin, High)]
  {
    var r := Sleep(b);
    var n := |b.script| - |r.script|;
    var prefix := b.steps + [Command(0x02)] + StatusPolls(n) + [Pause(200)];
    var tail := [Command(0x07), Data([0xA5])];
    assert prefix + [Command(0x07)] + [Data([0xA5])] == prefix + tail;
    EncodeAppend(prefix, tail);
    assert Encode(tail) == Frame(tail[0]) + Encode(tail[1..]);
    EncodeOne(tail[1]);
    assert tail[1..] == [tail[1]];
  }

  // ---- Busy-wait discipline -----------------------------------------------

  /** Every busy-pin read comes right after a status query. */
  ghost predicate ReadsQueried(steps: seq<Step>)
  {
    forall i :: 0 <= i < |steps| && steps[i].BusyRead? ==> 0 < i && steps[i - 1] == Command(Opcodes.GetStatus)
  }

  lemma ReadsQueriedAppend(a: seq<Step>, x: seq<Step>)
    requires ReadsQueried(a) && ReadsQueried(x)
    ensures ReadsQueried(a + x)
  {
    var t := a + x;
    forall i | 0 <= i < |t| && t[i].BusyRead?
      ensures 0 < i && t[i - 1] == Command(Opcodes.GetStatus)
    {
      if i < |a| {
        assert a[i] == t[i];
      } else {
        assert x[i - |a|] == t[i];
      }
    }
  }

  /** `n` rounds of polling hold `n` status queries and `n` reads, each read right after its query. */
  lemma {:induction false} StatusPollsShape(n: nat)
    ensures ReadsQueried(StatusPolls(n))
    ensures multiset(StatusPolls(n))[BusyRead] == n
    ensures multiset(StatusPolls(n))[Command(Opcodes.GetStatus)] == n
  {
    if n > 0 {
      StatusPollsShape(n - 1);
      StatusPollsCons(n - 1);
      var pair := [Command(Opcodes.GetStatus), BusyRead];
      assert ReadsQueried(pair);
      ReadsQueriedAppend(pair, StatusPolls(n - 1));
      assert multiset(StatusPolls(n)) == multiset(pair) + multiset(StatusPolls(n - 1));
    }
  }

  /**
   `ReadBusy` queries the status before every read, issues exactly as many status
   queries as it reads the pin, reads the pin once per reading it consumes, and
   ends with the 200 ms settle delay unless the readings ran out.
   */
  lemma ReadBusyQueriesEveryRead(b: Bus)
    requires !b.hung
    ensures var r := ReadBusy(b);
            var added := r.steps[|b.steps|..];
            && ReadsQueried(added)
            && multiset(added)[BusyRead] == |b.script| - |r.script|
            && multiset(added)[Command(Opcodes.GetStatus)] == |b.script| - |r.script|
            && (!r.hung ==> added[|added| - 1] == Pause(200))
  {
    var r := ReadBusy(b);
    var n := |b.script| - |r.script|;
    var tail: seq<Step> := if r.hung then [] else [Pause(200)];
    assert r.steps[|b.steps|..] == StatusPolls(n) + tail;
    StatusPollsShape(n);
    ReadsQueriedAppend(StatusPolls(n), tail);
  }

  /** The busy-wait loop looks at a reading only through whether `MustRead` makes it nonzero. */
  lemma {:induction false} PollSeesOnlyReadiness(b1: Bus, b2: Bus)
    requires b1.steps == b2.steps && b1.hung == b2.hung && |b1.script| == |b2.script|
    requires forall j :: 0 <= j < |b1.script| ==> (Ready(b1.script[j]) <==> Ready(b2.script[j]))
    ensures Poll(b1).steps == Poll(b2).steps
    ensures Poll(b1).hung == Poll(b2).hung
    ensures |Poll(b1).script| == |Poll(b2).script|
    decreases |b1.script|
  {
    if !b1.hung && |b1.script| > 0 {
      var steps := SendCommand(b1, Opcodes.GetStatus).steps + [BusyRead];
      var r1 := Bus(steps, b1.script[1..], false);
      var r2 := Bus(steps, b2.script[1..], false);
      assert Ready(b1.script[0]) <==> Ready(b2.script[0]);
      if !Ready(b1.script[0]) {
        assert Poll(b1) == Poll(r1);
        assert Poll(b2) == Poll(r2);
        forall j | 0 <= j < |r1.script|
          ensures Ready(r1.script[j]) <==> Ready(r2.script[j])
        {
          assert r1.script[j] == b1.script[j + 1];
          assert r2.script[j] == b2.script[j + 1];
        }
        PollSeesOnlyReadiness(r1, r2);
      }
    }
  }

  /**
   A read that fails is, to `ReadBusy`, the same as one that reads 0: the loop
   keeps polling, and the trace it produces is unchanged.
   */
  lemma FailedReadLooksBusy(b: Bus, j: nat, v: int, e: string)
    requires j < |b.script| && b.script[j] == Sample(v, Some(e))
    ensures var b' := b.(script := b.script[j := Sample(0, None)]);
            && Trace(ReadBusy(b)) == Trace(ReadBusy(b'))
            && ReadBusy(b).hung == ReadBusy(b').hung
            && |ReadBusy(b).script| == |ReadBusy(b').script|
  {
    var b' := b.(script := b.script[j := Sample(0, None)]);
    assert !Ready(b.script[j]) && !Ready(b'.script[j]);
    PollSeesOnlyReadiness(b, b');
  }

  // ---- Lifecycle sequences ------------------------------------------------

  /** The opcode of a step, unless it is a status query. */
  function OpcodeExceptStatus(s: Step): seq<byte>
  {
    if s.Command? && s.op != Opcodes.GetStatus then [s.op] else []
  }

  /** A projection that ignores status queries and busy reads finds nothing in a busy-wait. */
  lemma {:induction false} StatusPollsCarryNothing(n: nat, f: Step -> seq<byte>)
    requires f(Command(Opcodes.GetStatus)) == [] && f(BusyRead) == []
    ensures Gather(StatusPolls(n), f) == []
  {
    if n > 0 {
      StatusPollsCarryNothing(n - 1, f);
      StatusPollsCons(n - 1);
      var pair := [Command(Opcodes.GetStatus), BusyRead];
      GatherAppend(pair, StatusPolls(n - 1), f);
      assert pair[1..][1..] == [];
    }
  }

  /** A command followed by its parameter bytes, each byte sent as a data transaction of its own. */
  function Txn(op: byte, params: seq<byte>): seq<Step>
  {
    [Command(op)] + seq(|params|, i requires 0 <= i < |params| => Data([params[i]]))
  }

  lemma {:induction false} GatherTxn(op: byte, params: seq<byte>)
    requires op != Opcodes.GetStatus
    ensures Gather(Txn(op, params), OpcodeExceptStatus) == [op]
    ensures Gather(Txn(op, params), DataBytes) == params
    decreases |params|
  {
    if |params| == 0 {
      assert Txn(op, params) == [Command(op)];
      EncodeOne(Command(op));
      assert [Command(op)][1..] == [];
    } else {
      var init := params[..|params| - 1];
      var last := [Data([params[|params| - 1]])];
      assert Txn(op, params) == Txn(op, init) + last;
      GatherTxn(op, init);
      GatherAppend(Txn(op, init), last, OpcodeExceptStatus);
      GatherAppend(Txn(op, init), last, DataBytes);
      assert last[1..] == [];
      assert init + [params[|params| - 1]] == params;
    }
  }

  lemma {:induction false} GatherQuiet(s: seq<Step>, f: Step -> seq<byte>)
    requires forall i :: 0 <= i < |s| ==> f(s[i]) == []
    ensures Gather(s, f) == []
    decreases |s|
  {
    if |s| > 0 {
      GatherQuiet(s[1..], f);
    }
  }

  /** The init tables, regrouped as commands each followed by their parameter bytes. */
  lemma InitTablesAsTransactions()
    ensures PowerUpTable + [Command(0x04)] == Txn(0x01, [0x07, 0x07, 0x3F, 0x3F]) + Txn(0x04, [])
    ensures SettingsTable ==
            Txn(0x00, [0x1F]) + Txn(0x61, [0x03, 0x20, 0x01, 0xE0]) + Txn(0x15, [0x00])
            + Txn(0x50, [0x10, 0x07]) + Txn(0x60, [0x22])
  {
  }

  /**
   What a projection that ignores delays, reset-line writes, status queries and
   busy reads finds in the transactions `New` issues.
   */
  lemma NewGather(b: Bus, width: int, height: int, f: Step -> seq<byte>)
    requires !b.hung
    requires f(Command(Opcodes.GetStatus)) == [] && f(BusyRead) == []
    requires forall ms: nat :: f(Pause(ms)) == []
    requires forall level :: f(ResetLine(level)) == []
    ensures var r := New(b, width, height).bus;
            Gather(r.steps[|b.steps|..], f) ==
              Gather(Txn(0x01, [0x07, 0x07, 0x3F, 0x3F]), f) + Gather(Txn(0x04, []), f)
              + (if r.hung then []
                 else Gather(Txn(0x00, [0x1F]), f) + Gather(Txn(0x61, [0x03, 0x20, 0x01, 0xE0]), f)
                      + Gather(Txn(0x15, [0x00]), f) + Gather(Txn(0x50, [0x10, 0x07]), f)
                      + Gather(Txn(0x60, [0x22]), f))
  {
    var r := New(b, width, height).bus;
    var n := |b.script| - |r.script|;
    NewAdded(b, width, height);
    InitGather(n, r.hung, f);
  }

  /**
   The geometry given to `New` is stored but never sent: the resolution bytes 0x03 0x20 0x01 0xE0
   (800 x 480) go out whatever the width and height, and so does everything else.
   */
  lemma NewIgnoresGeometry(b: Bus, w1: int, h1: int, w2: int, h2: int)
    ensures New(b, w1, h1).bus == New(b, w2, h2).bus
    ensures New(b, w1, h1).epd == Epd(w1, h1)
  {
  }

  /** The transactions `New` adds, grouped as the init sequence issues them. */
  lemma NewAdded(b: Bus, width: int, height: int)
    requires !b.hung
    ensures var r := New(b, width, height).bus;
            var n := |b.script| - |r.script|;
            0 <= n &&
            r.steps[|b.steps|..] ==
              ResetPulse + (PowerUpTable + [Command(0x04)]) + [Pause(100)]
              + (StatusPolls(n) + (if r.hung then [] else [Pause(200)]))
              + (if r.hung then [] else SettingsTable)
  {
    var r := New(b, width, height).bus;
    var n := |b.script| - |r.script|;
    if r.hung {
      var powered := b.steps + ResetPulse + PowerUpTable + [Command(0x04)] + [Pause(100)] + StatusPolls(n);
      assert powered + [] + [] == powered;
      Regroup(b.steps, ResetPulse, PowerUpTable, [Command(0x04)], [Pause(100)], StatusPolls(n), [], []);
    } else {
      Regroup(b.steps, ResetPulse, PowerUpTable, [Command(0x04)], [Pause(100)], StatusPolls(n), [Pause(200)], SettingsTable);
    }
  }

  /** Dropping a prefix and regrouping what is left. */
  lemma Regroup<T>(pre: seq<T>, a: seq<T>, p: seq<T>, c: seq<T>, d: seq<T>, polls: seq<T>, e: seq<T>, f: seq<T>)
    ensures (pre + a + p + c + d + polls + e + f)[|pre|..] == a + (p + c) + d + (polls + e) + f
  {
    assert pre + a + p + c + d + polls + e + f == pre + (a + (p + c) + d + (polls + e) + f);
  }

  lemma InitGather(n: nat, hung: bool, f: Step -> seq<byte>)
    requires f(Command(Opcodes.GetStatus)) == [] && f(BusyRead) == []
    requires forall ms: nat :: f(Pause(ms)) == []
    requires forall level :: f(ResetLine(level)) == []
    ensures Gather(ResetPulse + (PowerUpTable + [Command(0x04)]) + [Pause(100)]
                   + (StatusPolls(n) + (if hung then [] else [Pause(200)]))
                   + (if hung then [] else SettingsTable), f) ==
            Gather(Txn(0x01, [0x07, 0x07, 0x3F, 0x3F]), f) + Gather(Txn(0x04, []), f)
            + (if hung then []
               else Gather(Txn(0x00, [0x1F]), f) + Gather(Txn(0x61, [0x03, 0x20, 0x01, 0xE0]), f)
                    + Gather(Txn(0x15, [0x00]), f) + Gather(Txn(0x50, [0x10, 0x07]), f)
                    + Gather(Txn(0x60, [0x22]), f))
  {
    var tail: seq<Step> := if hung then [] else [Pause(200)];
    GatherQuiet(ResetPulse, f);
    StatusPollsCarryNothing(n, f);
    GatherQuiet(tail, f);
    GatherAppend(StatusPolls(n), tail, f);
    PowerUpGather(f);
    if hung {
      GatherQuiet([], f);
    } else {
      SettingsGather(f);
    }
    GatherSkipQuiet(ResetPulse, PowerUpTable + [Command(0x04)], StatusPolls(n) + tail,
                    if hung then [] else SettingsTable, f);
  }

  /** Dropping the parts of a sequence that a projection ignores. */
  lemma GatherSkipQuiet(pulse: seq<Step>, power: seq<Step>, polls: seq<Step>, rest: seq<Step>, f: Step -> seq<byte>)
    requires Gather(pulse, f) == [] && Gather(polls, f) == [] && f(Pause(100)) == []
    ensures Gather(pulse + power + [Pause(100)] + polls + rest, f) == Gather(power, f) + Gather(rest, f)
  {
    GatherAppend5(pulse, power, [Pause(100)], polls, rest, f);
    GatherQuiet([Pause(100)], f);
  }

  lemma PowerUpGather(f: Step -> seq<byte>)
    ensures Gather(PowerUpTable + [Command(0x04)], f) ==
            Gather(Txn(0x01, [0x07, 0x07, 0x3F, 0x3F]), f) + Gather(Txn(0x04, []), f)
  {
    InitTablesAsTransactions();
    GatherAppend(Txn(0x01, [0x07, 0x07, 0x3F, 0x3F]), Txn(0x04, []), f);
  }

  lemma SettingsGather(f: Step -> seq<byte>)
    ensures Gather(SettingsTable, f) ==
            Gather(Txn(0x00, [0x1F]), f) + Gather(Txn(0x61, [0x03, 0x20, 0x01, 0xE0]), f)
            + Gather(Txn(0x15, [0x00]), f) + Gather(Txn(0x50, [0x10, 0x07]), f) + Gather(Txn(0x60, [0x22]), f)
  {
    InitTablesAsTransactions();
    GatherAppend5(Txn(0x00, [0x1F]), Txn(0x61, [0x03, 0x20, 0x01, 0xE0]), Txn(0x15, [0x00]),
                  Txn(0x50, [0x10, 0x07]), Txn(0x60, [0x22]), f);
  }

  /**
   Leaving out the status queries of its busy-wait, `New` sends the opcodes
   01 04 00 61 15 50 60 in that order and the data bytes 07 07 3F 3F 1F 03 20 01 E0
   00 10 07 22; when the busy-wait after power-on never ends, only 01 04 and the
   four voltage bytes go out.
   */
  lemma NewOpcodes(b: Bus, width: int, height: int)
    requires !b.hung
    ensures var r := New(b, width, height).bus;
            Gather(r.steps[|b.steps|..], OpcodeExceptStatus) ==
              (if r.hung then [0x01, 0x04] else [0x01, 0x04, 0x00, 0x61, 0x15, 0x50, 0x60])
  {
    var r := New(b, width, height).bus;
    NewGather(b, width, height, OpcodeExceptStatus);
    InitOpcodes(r.hung);
  }

  lemma NewData(b: Bus, width: int, height: int)
    requires !b.hung
    ensures var r := New(b, width, height).bus;
            Gather(r.steps[|b.steps|..], DataBytes) ==
              (if r.hung then [0x07, 0x07, 0x3F, 0x3F]
               else [0x07, 0x07, 0x3F, 0x3F, 0x1F, 0x03, 0x20, 0x01, 0xE0, 0x00, 0x10, 0x07, 0x22])
  {
    var r := New(b, width, height).bus;
    NewGather(b, width, height, DataBytes);
    InitData(r.hung);
  }

  lemma InitOpcodes(hung: bool)
    ensures Gather(Txn(0x01, [0x07, 0x07, 0x3F, 0x3F]), OpcodeExceptStatus) + Gather(Txn(0x04, []), OpcodeExceptStatus)
            + (if hung then []
               else Gather(Txn(0x00, [0x1F]), OpcodeExceptStatus) + Gather(Txn(0x61, [0x03, 0x20, 0x01, 0xE0]), OpcodeExceptStatus)
                    + Gather(Txn(0x15, [0x00]), OpcodeExceptStatus) + Gather(Txn(0x50, [0x10, 0x07]), OpcodeExceptStatus)
                    + Gather(Txn(0x60, [0x22]), OpcodeExceptStatus)) ==
            (if hung then [0x01, 0x04] else [0x01, 0x04, 0x00, 0x61, 0x15, 0x50, 0x60])
  {
    GatherTxn(0x01, [0x07, 0x07, 0x3F, 0x3F]);
    GatherTxn(0x04, []);
    GatherTxn(0x00, [0x1F]);
    GatherTxn(0x61, [0x03, 0x20, 0x01, 0xE0]);
    GatherTxn(0x15, [0x00]);
    GatherTxn(0x50, [0x10, 0x07]);
    GatherTxn(0x60, [0x22]);
    OpcodeBytes(hung, [0x01], [0x04], [0x00], [0x61], [0x15], [0x50], [0x60]);
  }

  lemma InitData(hung: bool)
    ensures Gather(Txn(0x01, [0x07, 0x07, 0x3F, 0x3F]), DataBytes) + Gather(Txn(0x04, []), DataBytes)
            + (if hung then []
               else Gather(Txn(0x00, [0x1F]), DataBytes) + Gather(Txn(0x61, [0x03, 0x20, 0x01, 0xE0]), DataBytes)
                    + Gather(Txn(0x15, [0x00]), DataBytes) + Gather(Txn(0x50, [0x10, 0x07]), DataBytes)
                    + Gather(Txn(0x60, [0x22]), DataBytes)) ==
            (if hung then [0x07, 0x07, 0x3F, 0x3F]
             else [0x07, 0x07, 0x3F, 0x3F, 0x1F, 0x03, 0x20, 0x01, 0xE0, 0x00, 0x10, 0x07, 0x22])
  {
    GatherTxn(0x01, [0x07, 0x07, 0x3F, 0x3F]);
    GatherTxn(0x04, []);
    GatherTxn(0x00, [0x1F]);
    GatherTxn(0x61, [0x03, 0x20, 0x01, 0xE0]);
    GatherTxn(0x15, [0x00]);
    GatherTxn(0x50, [0x10, 0x07]);
    GatherTxn(0x60, [0x22]);
    DataBytesInOrder(hung, [0x07, 0x07, 0x3F, 0x3F], [], [0x1F], [0x03, 0x20, 0x01, 0xE0], [0x00], [0x10, 0x07], [0x22]);
  }

  /**
   Assembling the per-transaction opcodes of the init sequence. The pieces are parameters fixed by the
   requires so that the concatenation is checked over plain variables rather than over projection terms.
   */
  lemma OpcodeBytes(hung: bool, a: seq<byte>, b: seq<byte>, c: seq<byte>, d: seq<byte>, e: seq<byte>, f: seq<byte>, g: seq<byte>)
    requires a == [0x01] && b == [0x04] && c == [0x00] && d == [0x61] && e == [0x15] && f == [0x50] && g == [0x60]
    ensures a + b + (if hung then [] else c + d + e + f + g) ==
            (if hung then [0x01, 0x04] else [0x01, 0x04, 0x00, 0x61, 0x15, 0x50, 0x60])
  {
  }

  /**
   Assembling the per-transaction parameters of the init sequence; the pieces are parameters for the
   same reason as in `OpcodeBytes`.
   */
  lemma DataBytesInOrder(hung: bool, a: seq<byte>, b: seq<byte>, c: seq<byte>, d: seq<byte>, e: seq<byte>, f: seq<byte>, g: seq<byte>)
    requires a == [0x07, 0x07, 0x3F, 0x3F] && b == [] && c == [0x1F] && d == [0x03, 0x20, 0x01, 0xE0]
    requires e == [0x00] && f == [0x10, 0x07] && g == [0x22]
    ensures a + b + (if hung then [] else c + d + e + f + g) ==
            (if hung then [0x07, 0x07, 0x3F, 0x3F]
             else [0x07, 0x07, 0x3F, 0x3F, 0x1F, 0x03, 0x20, 0x01, 0xE0, 0x00, 0x10, 0x07, 0x22])
  {
  }

  lemma GatherAppend5(t1: seq<Step>, t2: seq<Step>, t3: seq<Step>, t4: seq<Step>, t5: seq<Step>, f: Step -> seq<byte>)
    ensures Gather(t1 + t2 + t3 + t4 + t5, f) == Gather(t1, f) + Gather(t2, f) + Gather(t3, f) + Gather(t4, f) + Gather(t5, f)
  {
    GatherAppend(t1, t2, f);
    GatherAppend(t1 + t2, t3, f);
    GatherAppend(t1 + t2 + t3, t4, f);
    GatherAppend(t1 + t2 + t3 + t4, t5, f);
  }

  // ---- Clearing the frame planes --------------------------------------------

  /** A run of zero transactions carries zero parameter bytes and no opcode. */
  lemma {:induction false} GatherZeros(k: int)
    ensures Gather(Zeros(k), OpcodeExceptStatus) == []
    ensures |Gather(Zeros(k), DataBytes)| == (if k <= 0 then 0 else k)
    ensures forall i :: 0 <= i < |Gather(Zeros(k), DataBytes)| ==> Gather(Zeros(k), DataBytes)[i] == 0
    decreases k
  {
    if k > 0 {
      GatherZeros(k - 1);
      assert Zeros(k) == [Data([0x00])] + Zeros(k - 1);
      GatherAppend([Data([0x00])], Zeros(k - 1), OpcodeExceptStatus);
      GatherAppend([Data([0x00])], Zeros(k - 1), DataBytes);
      assert Gather([Data([0x00])], DataBytes) == [0x00];
    }
  }

  /** The two zeroed planes and the refresh command. */
  function PlaneSteps(k: int): seq<Step>
  {
    [Command(0x10)] + Zeros(k) + [Command(0x13)] + Zeros(k) + [Command(0x12)]
  }

  /** The wait after a refresh: 100 ms, the busy-wait, and the closing 200 ms unless the bus hung. */
  function RefreshWait(n: nat, hung: bool): seq<Step>
  {
    [Pause(100)] + StatusPolls(n) + (if hung then [] else [Pause(200)])
  }

  /** The transactions `Clear` adds, split into the two planes and the refresh wait. */
  lemma ClearAdded(e: Epd, b: Bus)
    requires !b.hung
    ensures var r := Clear(e, b);
            var n := |b.script| - |r.script|;
            0 <= n &&
            r.steps[|b.steps|..] == PlaneSteps(QuoEight(e.Pixels())) + RefreshWait(n, r.hung)
  {
    var r := Clear(e, b);
    var k := QuoEight(e.Pixels());
    var n := |b.script| - |r.script|;
    if r.hung {
      var refreshed := b.steps + [Command(0x10)] + Zeros(k) + [Command(0x13)] + Zeros(k)
                       + [Command(0x12)] + [Pause(100)] + StatusPolls(n);
      assert refreshed + [] == refreshed;
      RegroupPlanes(b.steps, [Command(0x10)], Zeros(k), [Command(0x13)], [Command(0x12)], [Pause(100)], StatusPolls(n), []);
    } else {
      RegroupPlanes(b.steps, [Command(0x10)], Zeros(k), [Command(0x13)], [Command(0x12)], [Pause(100)], StatusPolls(n), [Pause(200)]);
    }
  }

  lemma RegroupPlanes<T>(pre: seq<T>, c1: seq<T>, z: seq<T>, c2: seq<T>, c3: seq<T>, p: seq<T>, polls: seq<T>, e: seq<T>)
    ensures (pre + c1 + z + c2 + z + c3 + p + polls + e)[|pre|..] == c1 + z + c2 + z + c3 + (p + polls + e)
  {
    assert pre + c1 + z + c2 + z + c3 + p + polls + e == pre + (c1 + z + c2 + z + c3 + (p + polls + e));
  }

  /** What a projection that ignores delays and busy-waits finds in the transactions `Clear` adds. */
  lemma ClearGather(e: Epd, b: Bus, f: Step -> seq<byte>)
    requires !b.hung
    requires f(Command(Opcodes.GetStatus)) == [] && f(BusyRead) == []
    requires forall ms: nat :: f(Pause(ms)) == []
    ensures var r := Clear(e, b);
            var k := QuoEight(e.Pixels());
            Gather(r.steps[|b.steps|..], f) ==
              f(Command(0x10)) + Gather(Zeros(k), f) + f(Command(0x13)) + Gather(Zeros(k), f) + f(Command(0x12))
  {
    var r := Clear(e, b);
    var k := QuoEight(e.Pixels());
    var n := |b.script| - |r.script|;
    ClearAdded(e, b);
    WaitQuiet(n, r.hung, f);
    PlanesGather(k, f);
    GatherAppend(PlaneSteps(k), RefreshWait(n, r.hung), f);
  }

  /** The refresh wait carries nothing a projection that ignores delays and busy-waits sees. */
  lemma WaitQuiet(n: nat, hung: bool, f: Step -> seq<byte>)
    requires f(Command(Opcodes.GetStatus)) == [] && f(BusyRead) == []
    requires forall ms: nat :: f(Pause(ms)) == []
    ensures Gather(RefreshWait(n, hung), f) == []
  {
    StatusPollsCarryNothing(n, f);
    GatherQuiet([Pause(100)], f);
    GatherQuiet(if hung then [] else [Pause(200)], f);
    GatherAppend([Pause(100)], StatusPolls(n), f);
    GatherAppend([Pause(100)] + StatusPolls(n), if hung then [] else [Pause(200)], f);
  }

  lemma PlanesGather(k: int, f: Step -> seq<byte>)
    ensures Gather(PlaneSteps(k), f) ==
            f(Command(0x10)) + Gather(Zeros(k), f) + f(Command(0x13)) + Gather(Zeros(k), f) + f(Command(0x12))
  {
    GatherAppend5([Command(0x10)], Zeros(k), [Command(0x13)], Zeros(k), [Command(0x12)], f);
    GatherOne(Command(0x10), f);
    GatherOne(Command(0x13), f);
    GatherOne(Command(0x12), f);
  }

  lemma GatherOne(s: Step, f: Step -> seq<byte>)
    ensures Gather([s], f) == f(s)
  {
    assert [s][1..] == [];
  }

  /**
   `Clear` opens plane 1, plane 2 and then refreshes, and writes nothing but zero bytes:
   one per eight pixels (Go's truncating quotient) into each plane, none when the pixel count is not positive.
   */
  lemma ClearWritesZeroPlanes(e: Epd, b: Bus)
    requires !b.hung
    ensures var added := Clear(e, b).steps[|b.steps|..];
            var data := Gather(added, DataBytes);
            && Gather(added, OpcodeExceptStatus) == [0x10, 0x13, 0x12]
            && (forall i :: 0 <= i < |data| ==> data[i] == 0)
            && (e.Pixels() <= 0 ==> |data| == 0)
            && (0 < e.Pixels() ==> 8 * (|data| / 2) <= e.Pixels() < 8 * (|data| / 2) + 8)
            && |data| % 2 == 0
  {
    var added := Clear(e, b).steps[|b.steps|..];
    var k := QuoEight(e.Pixels());
    ClearGather(e, b, OpcodeExceptStatus);
    ClearGather(e, b, DataBytes);
    GatherZeros(k);
    PlaneSummary(Gather(added, OpcodeExceptStatus), Gather(added, DataBytes), e.Pixels(), k,
                 Gather(Zeros(k), OpcodeExceptStatus), Gather(Zeros(k), DataBytes));
  }

  /**
   Assembling the opcodes and bytes of the two planes. The projections of `Clear` are passed in as
   parameters so that the byte arithmetic is checked over plain variables.
   */
  lemma PlaneSummary(ops: seq<byte>, data: seq<byte>, pixels: int, k: int, none: seq<byte>, z: seq<byte>)
    requires none == [] && ops == [0x10] + none + [0x13] + none + [0x12]
    requires data == [] + z + [] + z + []
    requires k == QuoEight(pixels)
    requires |z| == (if k <= 0 then 0 else k)
    requires forall i :: 0 <= i < |z| ==> z[i] == 0
    ensures ops == [0x10, 0x13, 0x12]
    ensures forall i :: 0 <= i < |data| ==> data[i] == 0
    ensures pixels <= 0 ==> |data| == 0
    ensures 0 < pixels ==> 8 * (|data| / 2) <= pixels < 8 * (|data| / 2) + 8
    ensures |data| % 2 == 0
  {
    assert data == z + z;
    PlaneBytes(pixels, k, z);
  }

  /** Two zero planes of `QuoEight(pixels)` bytes each cover the pixels rounded down to whole bytes. */
  lemma PlaneBytes(pixels: int, k: int, z: seq<byte>)
    requires k == QuoEight(pixels)
    requires |z| == (if k <= 0 then 0 else k)
    requires forall i :: 0 <= i < |z| ==> z[i] == 0
    ensures forall i :: 0 <= i < |z + z| ==> (z + z)[i] == 0
    ensures pixels <= 0 ==> |z + z| == 0
    ensures 0 < pixels ==> 8 * (|z + z| / 2) <= pixels < 8 * (|z + z| / 2) + 8
    ensures |z + z| % 2 == 0
  {
    forall i | 0 <= i < |z + z|
      ensures (z + z)[i] == 0
    {
      if i < |z| {
        assert (z + z)[i] == z[i];
      } else {
        assert (z + z)[i] == z[i - |z|];
      }
    }
  }
}
