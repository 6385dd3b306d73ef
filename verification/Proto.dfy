/** Wire vocabulary: frame constants, opcodes, parameters, errors and socket states. */
module Proto {

  type byte = b: int | 0 <= b < 0x100

  const START_CMD: byte := 0xE0
  const END_CMD: byte := 0xEE
  const ERR_CMD: byte := 0xEF
  const REPLY_FLAG: byte := 0x80
  const DUMMY: byte := 0xFF
  const START_TIMEOUT_ITERS: nat := 1000

  const CMD_GET_IPADDR: byte := 0x21
  const CMD_DATA_SENT_TCP: byte := 0x2A
  const CMD_START_CLIENT_TCP: byte := 0x2D
  const CMD_STOP_CLIENT_TCP: byte := 0x2E
  const CMD_GET_CLIENT_STATE_TCP: byte := 0x2F
  const CMD_REQ_HOST_BY_NAME: byte := 0x34
  const CMD_GET_HOST_BY_NAME: byte := 0x35
  const CMD_SEND_UDP_DATA: byte := 0x39
  const CMD_GET_REMOTE_DATA: byte := 0x3A
  const CMD_GET_SOCKET: byte := 0x3F
  const CMD_SEND_DATA_TCP: byte := 0x44
  const CMD_GET_DATABUF_TCP: byte := 0x45
  const CMD_INSERT_DATABUF: byte := 0x46

  const TCP_MODE: byte := 0
  const UDP_MODE: byte := 1
  const TLS_MODE: byte := 2
  const NO_SOCKET: byte := 0xFF

  datatype Option<+T> = None | Some(value: T)

  /** The SPI and pin errors of the HAL carry no payload that the driver looks at. */
  datatype Error = Spi | Pin | Framing | Nina | Timeout | BufferTooSmall | Unsupported

  datatype Result<+T> = Ok(value: T) | Err(error: Error)

  /** One request parameter; the constructor picks the width of its length prefix. */
  datatype Param = Short(data: seq<byte>) | Long(data: seq<byte>)

  datatype SockState =
    | Closed | Listen | SynSent | SynRcvd | Established | FinWait1 | FinWait2
    | CloseWait | Closing | LastAck | TimeWait | Unknown

  function SockStateFromU8(b: byte): SockState {
    match b
    case 0 => Closed
    case 1 => Listen
    case 2 => SynSent
    case 3 => SynRcvd
    case 4 => Established
    case 5 => FinWait1
    case 6 => FinWait2
    case 7 => CloseWait
    case 8 => Closing
    case 9 => LastAck
    case 10 => TimeWait
    case _ => Unknown
  }

  /** States in which a read with nothing to deliver reports end of file. */
  predicate IsClosed(state: SockState) {
    state.Closed? || state.CloseWait? || state.Closing? || state.LastAck? || state.TimeWait?
  }

  /** `cmd & !REPLY_FLAG` */
  function AsRequest(cmd: byte): byte {
    cmd % REPLY_FLAG
  }

  /** `cmd | REPLY_FLAG` */
  function AsReply(cmd: byte): byte {
    cmd % REPLY_FLAG + REPLY_FLAG
  }

  /** `n as u8` */
  function LowByte(n: nat): byte {
    n % 0x100
  }

  function Min(a: nat, b: nat): nat {
    if a <= b then a else b
  }

  /** `(n as u16).to_be_bytes()` */
  function Be16(n: nat): seq<byte> {
    [LowByte(n / 0x100), LowByte(n)]
  }

  /** `(n as u16).to_le_bytes()` */
  function Le16(n: nat): seq<byte> {
    [LowByte(n), LowByte(n / 0x100)]
  }

  function FromBe16(hi: byte, lo: byte): nat {
    hi * 0x100 + lo
  }

  function FromLe16(lo: byte, hi: byte): nat {
    hi * 0x100 + lo
  }
}
