/**
  The UART driver as the platform layer sees it: one transmit line-ending mode shared by the
  CLI and the radio port, and the sender of src/uart.c.
 */
module Uart {
  import opened Platform

  const LF: uint8 := 10
  const CR: uint8 := 13

  datatype LineEnding = Lf | Crlf

  /** What the driver puts on the wire for a LF in CRLF mode: CR LF. */
  function Expand(data: seq<uint8>): seq<uint8> {
    if data == [] then [] else (if data[0] == LF then [CR, LF] else [data[0]]) + Expand(data[1..])
  }

  /** A receiver that drops the CR before each LF. */
  function Contract(wire: seq<uint8>): seq<uint8> {
    if wire == [] then []
    else if |wire| > 1 && wire[0] == CR && wire[1] == LF then [LF] + Contract(wire[2..])
    else [wire[0]] + Contract(wire[1..])
  }

  function OnWire(mode: LineEnding, data: seq<uint8>): seq<uint8> {
    match mode
    case Lf => data
    case Crlf => Expand(data)
  }

  lemma {:induction false} ExpandConcat(a: seq<uint8>, b: seq<uint8>)
    ensures Expand(a + b) == Expand(a) + Expand(b)
  {
    if a == [] {
      assert a + b == b;
    } else {
      assert (a + b)[1..] == a[1..] + b;
      ExpandConcat(a[1..], b);
    }
  }

  /** The expansion loses nothing: the receiver recovers the source, CRs of its own included. */
  lemma {:induction false} ContractExpand(data: seq<uint8>)
    ensures Contract(Expand(data)) == data
  {
    if data != [] {
      var rest := Expand(data[1..]);
      ContractExpand(data[1..]);
      if data[0] == LF {
        assert Expand(data)[2..] == rest;
      } else {
        assert Expand(data)[1..] == rest;
        if rest != [] {
          ExpandStartsWithoutLf(data[1..]);
        }
      }
    }
  }

  /** On the wire no LF stands without its CR. */
  lemma {:induction false} EveryLfFollowsCr(data: seq<uint8>, k: nat)
    requires k < |Expand(data)| && Expand(data)[k] == 10
    ensures k > 0 && Expand(data)[k - 1] == 13
  {
    var head := if data[0] == LF then [CR, LF] else [data[0]];
    if k >= |head| {
      EveryLfFollowsCr(data[1..], k - |head|);
    }
  }

  lemma ExpandStartsWithoutLf(data: seq<uint8>)
    requires data != []
    ensures Expand(data)[0] != LF
  {
  }

  /** In CRLF mode a frame reaches the wire unchanged exactly when it contains no LF. */
  lemma {:induction false} VerbatimIffNoLf(data: seq<uint8>)
    ensures |Expand(data)| >= |data|
    ensures Expand(data) == data <==> 10 !in data
  {
    if data != [] {
      VerbatimIffNoLf(data[1..]);
      assert data == [data[0]] + data[1..];
      if data[0] == LF {
        assert Expand(data)[0] == CR;
      } else {
        assert Expand(data)[1..] == Expand(data[1..]);
      }
    }
  }

  /** The value of the driver: its mode and what each port has emitted. */
  datatype Wires = Wires(mode: LineEnding, radio: seq<uint8>, cli: seq<uint8>)

  /** Bytes taken by a `write` of `n` bytes that returned `rval`. */
  function Taken(rval: int, n: nat): nat {
    if rval <= 0 then 0 else if rval <= n then rval else n
  }

  function WrittenToRadio(w: Wires, data: seq<uint8>, rval: int): Wires {
    w.(radio := w.radio + OnWire(w.mode, data[..Taken(rval, |data|)]))
  }

  function WrittenToCli(w: Wires, data: seq<uint8>, rval: int): Wires {
    w.(cli := w.cli + OnWire(w.mode, data[..Taken(rval, |data|)]))
  }

  class UartDriver {
    var mode: LineEnding
    var radio: seq<uint8>
    var cli: seq<uint8>

    function Value(): Wires
      reads this
    {
      Wires(mode, radio, cli)
    }

    /** `platformCliUartInit` leaves the shared mode at CRLF. */
    constructor ()
      ensures Value() == Wires(Crlf, [], [])
    {
      mode, radio, cli := Crlf, [], [];
    }

    /** `esp_vfs_dev_uart_set_tx_line_endings` */
    method SetTxLineEndings(m: LineEnding)
      modifies this`mode
      ensures mode == m
    {
      mode := m;
    }

    method WriteRadio(data: seq<uint8>, rval: int)
      modifies this`radio
      ensures Value() == WrittenToRadio(old(Value()), data, rval)
    {
      radio := radio + OnWire(mode, data[..Taken(rval, |data|)]);
    }

    method WriteCli(data: seq<uint8>, rval: int)
      modifies this`cli
      ensures Value() == WrittenToCli(old(Value()), data, rval)
    {
      cli := cli + OnWire(mode, data[..Taken(rval, |data|)]);
    }

    /** `otPlatUartSend`, given the result of its one `write`; a short write is not retried. */
    method Send(buf: seq<uint8>, rval: int) returns (ok: bool)
      modifies this`cli
      ensures Value() == WrittenToCli(old(Value()), buf, rval)
      ensures ok == (rval == |buf|)
      ensures rval <= 0 ==> cli == old(cli)
      ensures 0 <= rval <= |buf| ==> cli == old(cli) + OnWire(mode, buf[..rval])
      ensures ok ==> cli == old(cli) + OnWire(mode, buf)
    {
      WriteCli(buf, rval);
      ok := rval == |buf|;
      assert buf[..|buf|] == buf;
    }
  }
}
