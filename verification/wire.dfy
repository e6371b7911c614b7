/**
 The abstract hardware the driver talks to: three output pins, one input pin and an
 SPI bus, seen as a trace of events. Transactions (`Step`) are the unit the driver
 issues; `Encode` gives the pin/SPI events each one produces, and `Parse` is the
 panel-side decoder that recovers the transactions from the events.
 */
module Wire {
  import opened Wrappers

  newtype byte = x: int | 0 <= x < 256

  /** The two values the driver writes with `DigitalWrite` (0 and 1). */
  datatype Level = Low | High

  /** The logical pins the driver is bound to. */
  datatype Pin = ResetPin | DcPin | CsPin | BusyPin

  /** One observable hardware action. */
  datatype Event =
    | PinWrite(pin: Pin, level: Level)
    | SpiWrite(bytes: seq<byte>)
    | Delay(ms: nat)
    | PinRead(pin: Pin)

  /** One driver-level action: a framed command or data burst, a reset-line write, a delay, a busy-pin read. */
  datatype Step =
    | Command(op: byte)
    | Data(bytes: seq<byte>)
    | ResetLine(level: Level)
    | Pause(ms: nat)
    | BusyRead

  /** The events one step puts on the pins and the bus. */
  function Frame(s: Step): seq<Event>
  {
    match s
    case Command(op) => [PinWrite(DcPin, Low), PinWrite(CsPin, Low), SpiWrite([op]), PinWrite(CsPin, High)]
    case Data(bytes) => [PinWrite(DcPin, High), PinWrite(CsPin, Low), SpiWrite(bytes), PinWrite(CsPin, High)]
    case ResetLine(level) => [PinWrite(ResetPin, level)]
    case Pause(ms) => [Delay(ms)]
    case BusyRead => [PinRead(BusyPin)]
  }

  function Encode(steps: seq<Step>): seq<Event>
    decreases |steps|
  {
    if |steps| == 0 then [] else Frame(steps[0]) + Encode(steps[1..])
  }

  function Prepend(s: Step, rest: Option<seq<Step>>): Option<seq<Step>>
  {
    match rest
    case None => None
    case Some(tail) => Some([s] + tail)
  }

  /**
   What the panel makes of a trace: with chip-select low, a byte written while
   data/command is low is an opcode and one written while it is high is data.
   A trace that is not a sequence of whole transactions decodes to None.
   */
  function Parse(t: seq<Event>): Option<seq<Step>>
    decreases |t|
  {
    if |t| == 0 then Some([])
    else
      match t[0]
      case PinWrite(ResetPin, level) => Prepend(ResetLine(level), Parse(t[1..]))
      case Delay(ms) => Prepend(Pause(ms), Parse(t[1..]))
      case PinRead(BusyPin) => Prepend(BusyRead, Parse(t[1..]))
      case PinWrite(DcPin, dc) =>
        if 4 <= |t| && t[1] == PinWrite(CsPin, Low) && t[2].SpiWrite? && t[3] == PinWrite(CsPin, High) then
          if dc == High then Prepend(Data(t[2].bytes), Parse(t[4..]))
          else if |t[2].bytes| == 1 then Prepend(Command(t[2].bytes[0]), Parse(t[4..]))
          else None
        else None
      case _ => None
  }

  lemma {:induction false} EncodeAppend(a: seq<Step>, b: seq<Step>)
    ensures Encode(a + b) == Encode(a) + Encode(b)
    decreases |a|
  {
    if |a| == 0 {
      assert a + b == b;
    } else {
      assert (a + b)[0] == a[0];
      assert (a + b)[1..] == a[1..] + b;
      EncodeAppend(a[1..], b);
    }
  }

  /** Decoding an encoded transaction sequence gives back exactly that sequence. */
  lemma {:induction false} ParseEncode(steps: seq<Step>)
    ensures Parse(Encode(steps)) == Some(steps)
    decreases |steps|
  {
    if |steps| > 0 {
      ParseEncode(steps[1..]);
      ParseFrame(steps[0], Encode(steps[1..]));
      assert [steps[0]] + steps[1..] == steps;
    }
  }

  /** A transaction's frame decodes to that transaction, whatever follows it. */
  lemma ParseFrame(s: Step, rest: seq<Event>)
    ensures Parse(Frame(s) + rest) == Prepend(s, Parse(rest))
  {
    var t := Frame(s) + rest;
    assert t[|Frame(s)|..] == rest;
    match s {
      case Command(op) =>
        assert t[2] == SpiWrite([op]);
      case Data(bytes) =>
      case ResetLine(level) =>
      case Pause(ms) =>
      case BusyRead =>
    }
  }

  /** Every trace the panel can decode is the encoding of what it decodes to. */
  lemma {:induction false} EncodeParse(t: seq<Event>)
    requires Parse(t).Some?
    ensures Encode(Parse(t).value) == t
    decreases |t|
  {
    if |t| > 0 {
      var steps := Parse(t).value;
      match t[0]
      case PinWrite(ResetPin, level) =>
        EncodeParse(t[1..]);
        assert steps == [ResetLine(level)] + Parse(t[1..]).value;
        assert steps[1..] == Parse(t[1..]).value;
        assert t == [t[0]] + t[1..];
      case Delay(ms) =>
        EncodeParse(t[1..]);
        assert steps[1..] == Parse(t[1..]).value;
        assert t == [t[0]] + t[1..];
      case PinRead(BusyPin) =>
        EncodeParse(t[1..]);
        assert steps[1..] == Parse(t[1..]).value;
        assert t == [t[0]] + t[1..];
      case PinWrite(DcPin, dc) =>
        EncodeParse(t[4..]);
        EncodeParseFrame(t, dc);
    }
  }

  /** The inductive step of `EncodeParse` for a four-event transaction frame. */
  lemma EncodeParseFrame(t: seq<Event>, dc: Level)
    requires 4 <= |t| && t[0] == PinWrite(DcPin, dc) && Parse(t).Some?
    requires Parse(t[4..]).Some? && Encode(Parse(t[4..]).value) == t[4..]
    ensures Encode(Parse(t).value) == t
  {
    var steps := Parse(t).value;
    assert steps[1..] == Parse(t[4..]).value;
    if dc == Low {
      assert t[2] == SpiWrite([t[2].bytes[0]]);
    }
    assert Frame(steps[0]) == t[..4];
    assert t == t[..4] + t[4..];
  }

  /** The encoding is a bijection onto the decodable traces. */
  lemma ParseIffEncode(t: seq<Event>, steps: seq<Step>)
    ensures Parse(t) == Some(steps) <==> t == Encode(steps)
  {
    if Parse(t) == Some(steps) {
      EncodeParse(t);
    }
    if t == Encode(steps) {
      ParseEncode(steps);
    }
  }

  /** Every SPI burst is immediately preceded by chip-select low and followed by chip-select high. */
  ghost predicate BurstsSelected(t: seq<Event>)
  {
    forall i :: 0 <= i < |t| && t[i].SpiWrite? ==>
      0 < i < |t| - 1 && t[i - 1] == PinWrite(CsPin, Low) && t[i + 1] == PinWrite(CsPin, High)
  }

  lemma BurstsSelectedAppend(a: seq<Event>, b: seq<Event>)
    requires BurstsSelected(a) && BurstsSelected(b)
    ensures BurstsSelected(a + b)
  {
    var t := a + b;
    forall i | 0 <= i < |t| && t[i].SpiWrite?
      ensures 0 < i < |t| - 1 && t[i - 1] == PinWrite(CsPin, Low) && t[i + 1] == PinWrite(CsPin, High)
    {
      if i < |a| {
        assert a[i] == t[i];
      } else {
        assert b[i - |a|] == t[i];
      }
    }
  }

  lemma {:induction false} EncodeBurstsSelected(steps: seq<Step>)
    ensures BurstsSelected(Encode(steps))
    decreases |steps|
  {
    if |steps| > 0 {
      EncodeBurstsSelected(steps[1..]);
      BurstsSelectedAppend(Frame(steps[0]), Encode(steps[1..]));
    }
  }

  /** The level chip-select was last driven to, if it was driven at all. */
  function LastChipSelect(t: seq<Event>): Option<Level>
    decreases |t|
  {
    if |t| == 0 then None
    else if t[|t| - 1].PinWrite? && t[|t| - 1].pin == CsPin then Some(t[|t| - 1].level)
    else LastChipSelect(t[..|t| - 1])
  }

  lemma {:induction false} LastChipSelectAppend(a: seq<Event>, b: seq<Event>)
    ensures LastChipSelect(a + b) == if LastChipSelect(b).Some? then LastChipSelect(b) else LastChipSelect(a)
    decreases |b|
  {
    if |b| == 0 {
      assert a + b == a;
    } else {
      assert (a + b)[..|a + b| - 1] == a + b[..|b| - 1];
      LastChipSelectAppend(a, b[..|b| - 1]);
    }
  }

  /**
   After any whole number of transactions the chip is deselected: chip-select was
   last driven high, or never driven at all when no command or data was sent.
   */
  lemma {:induction false} EncodeLeavesChipDeselected(steps: seq<Step>)
    ensures LastChipSelect(Encode(steps)) != Some(Low)
    ensures (exists i :: 0 <= i < |steps| && (steps[i].Command? || steps[i].Data?)) ==>
              LastChipSelect(Encode(steps)) == Some(High)
    decreases |steps|
  {
    if |steps| > 0 {
      var f := Frame(steps[0]);
      assert Encode(steps) == f + Encode(steps[1..]);
      EncodeLeavesChipDeselected(steps[1..]);
      LastChipSelectAppend(f, Encode(steps[1..]));
      match steps[0] {
        case Command(op) =>
          assert f == f[..3] + [f[3]];
        case Data(bytes) =>
          assert f == f[..3] + [f[3]];
        case ResetLine(level) =>
          assert f[..0] == [];
        case Pause(ms) =>
          assert f[..0] == [];
        case BusyRead =>
          assert f[..0] == [];
      }
      if exists i :: 0 <= i < |steps| && (steps[i].Command? || steps[i].Data?) {
        var i :| 0 <= i < |steps| && (steps[i].Command? || steps[i].Data?);
        if i > 0 {
          assert steps[1..][i - 1] == steps[i];
        } else {
          assert LastChipSelect(f) == Some(High);
          var rest := LastChipSelect(Encode(steps[1..]));
          assert rest.Some? ==> rest.value == High;
          assert LastChipSelect(f + Encode(steps[1..])) == Some(High);
        }
      }
    }
  }

  /** Concatenation over a trace of transactions of what `f` picks from each step. */
  function Gather(steps: seq<Step>, f: Step -> seq<byte>): seq<byte>
    decreases |steps|
  {
    if |steps| == 0 then [] else f(steps[0]) + Gather(steps[1..], f)
  }

  lemma {:induction false} GatherAppend(a: seq<Step>, b: seq<Step>, f: Step -> seq<byte>)
    ensures Gather(a + b, f) == Gather(a, f) + Gather(b, f)
    decreases |a|
  {
    if |a| == 0 {
      assert a + b == b;
    } else {
      assert (a + b)[0] == a[0];
      assert (a + b)[1..] == a[1..] + b;
      GatherAppend(a[1..], b, f);
    }
  }

  /** The data bytes a step carries. */
  function DataBytes(s: Step): seq<byte>
  {
    if s.Data? then s.bytes else []
  }
}
