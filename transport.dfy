/**
 * The BLE library as the session sees it. Nothing here is the library
 * itself: its answers are given as oracles, and the peripheral it reports is
 * a value that says which connect steps fail.
 */
module Transport {
  import opened ScaleTypes
  import opened Codec

  /** The adapter states the transport reports to onStateChanged. */
  datatype AdapterState = Unknown | Resetting | Unsupported | Unauthorized | PoweredOff | PoweredOn

  /** A characteristic found during discovery, with the outcome of the steps applied to it. */
  datatype GattCharacteristic = GattCharacteristic(uuid: string, descriptorsFail: bool, subscribeFails: bool)

  /** A service found during discovery, with the outcome of discovering its characteristics. */
  datatype GattService = GattService(uuid: string, characteristicsFail: bool, characteristics: seq<GattCharacteristic>)

  /** A peripheral as discovery reports it, with the outcome of each connect step. */
  datatype Peripheral = Peripheral(
    id: string,
    name: string,
    mtuFails: bool,
    servicesFail: bool,
    services: seq<GattService>)

  const DataService := "ffe0"
  const DataCharacteristic := "ffe1"

  /**
   * The answers the environment gives the session's command path: whether a
   * peripheral and characteristic are bound, whether the k-th characteristic
   * write fails, and the buzzer flag the k-th poll reads (the value the
   * notification context has stored by then).
   */
  datatype Oracle = Oracle(ready: bool, writeFails: nat -> bool, seen: nat -> bool)

  /**
   * The part of the session the command path reads and changes: the buzzer
   * flag, every command byte handed to the transport, and the number of polls
   * made so far.
   */
  datatype Link = Link(flag: bool, sent: seq<byte>, polls: nat)

  /**
   * write: refused with no write when nothing is bound; otherwise the byte is
   * handed to the transport, whose answer is the outcome.
   */
  function Transmit(o: Oracle, l: Link, cmd: byte): (res: (Outcome, Link))
    ensures res.1.flag == l.flag && res.1.polls == l.polls
    ensures res.1.sent == if o.ready then l.sent + [cmd] else l.sent
    ensures res.0.Ok? <==> o.ready && !o.writeFails(|l.sent|)
    ensures !o.ready ==> res.0 == Fail(NotReady)
    ensures res.0.Fail? && o.ready ==> res.0 == Fail(WriteFailed)
  {
    if !o.ready then (Fail(NotReady), l)
    else (if o.writeFails(|l.sent|) then Fail(WriteFailed) else Ok, l.(sent := l.sent + [cmd]))
  }
}
