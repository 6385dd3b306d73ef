/** The socket handles: reads and writes on one connection, and the connecting stack. */
module Sockets {
  import opened Driver
  import opened Machine
  import opened Proto
  import opened Runs

  /** A connected slot on an exclusively borrowed chip. */
  class NinaTcpSocket {
    const chip: Nina
    const sock: byte

    constructor (chip: Nina, sock: byte)
      ensures this.chip == chip && this.sock == sock
    {
      this.chip := chip;
      this.sock := sock;
    }

    /**
      Waits until data arrives or the peer has closed.  The source polls for ever;
      `patience` is how many polls this call is watched for, and None means that it
      is still polling then, in the state in which it started.
    */
    method Read(buf: array<byte>, patience: nat) returns (r: Option<Result<nat>>)
      requires chip.Valid()
      modifies chip, buf
      ensures chip.Valid()
      ensures r.Some? && r.value.Ok? ==>
                && r.value.value <= buf.Length
                && buf[r.value.value..] == old(buf[..])[r.value.value..]
                && Ran(old(chip.log), chip.log, Ready(Start(Machine.Read(sock, buf.Length))),
                       Ready(Done(Ok(Data(buf[..r.value.value])))))
      ensures r.Some? && r.value.Err? ==>
                Ran(old(chip.log), chip.log, Ready(Start(Machine.Read(sock, buf.Length))), Ready(Done(Err(r.value.error))))
      ensures r.None? ==>
                && buf[..] == old(buf[..])
                && Ran(old(chip.log), chip.log, Ready(Start(Machine.Read(sock, buf.Length))),
                       Ready(Start(Machine.Read(sock, buf.Length))))
    {
      hide Faithful, Exchanged, After, IsClosed;
      ghost var room := buf.Length;
      ghost var c := Ready(Pull(sock, room));
      ghost var start := chip.log;
      RanNothing(chip.log, c);
      var left := patience;
      while left > 0
        invariant chip.Valid() && left >= 0
        invariant Ran(start, chip.log, c, c)
        invariant buf[..] == old(buf[..])
      {
        ghost var before := chip.log;
        var n := chip.TcpRecv(sock, buf);
        RanExchange(start, before, chip.log, c, Pull(sock, room));
        if n.Err? {
          return Some(Err(n.error));
        }
        if n.value > 0 {
          return Some(Ok(n.value));
        }
        assert buf[..] == buf[0..] && old(buf[..])[0..] == old(buf[..]);
        before := chip.log;
        var state := chip.TcpState(sock);
        RanExchange(start, before, chip.log, c, Probe(sock, room));
        if state.Err? {
          return Some(Err(state.error));
        }
        if IsClosed(state.value) {
          assert buf[..0] == [];
          return Some(Ok(0));
        }
        before := chip.log;
        Doze();
        RanNap(start, before, c, sock, room);
        left := left - 1;
      }
      return None;
    }

    /** The sleep between two polls. */
    method Doze()
      requires chip.Valid()
      modifies chip`log
      ensures chip.Valid() && chip.log == old(chip.log) + [Nap]
    {
      chip.Record(Nap);
    }

    method Write(data: seq<byte>) returns (r: Result<nat>)
      requires chip.Valid()
      modifies chip
      ensures chip.Valid()
      ensures Ran(old(chip.log), chip.log, Ready(Start(Machine.Write(sock, data))),
                  Ready(Done(if r.Ok? then Ok(Count(r.value)) else Err(r.error))))
    {
      r := chip.TcpSend(sock, data);
    }

    method Close() returns (r: Result<()>)
      requires chip.Valid()
      modifies chip
      ensures chip.Valid()
      ensures Ran(old(chip.log), chip.log, Ready(Start(Machine.Close(sock))),
                  Ready(Done(if r.Ok? then Ok(Unit) else Err(r.error))))
    {
      hide Faithful, Exchanged, After;
      RanNothing(chip.log, Ready(Stop(sock)));
      r := chip.TcpClose(sock);
      RanExchange(old(chip.log), old(chip.log), chip.log, Ready(Stop(sock)), Stop(sock));
    }
  }

  datatype SocketAddr = V4(ip: seq<byte>, port: nat) | V6(words: seq<nat>, port: nat)

  /** The stack while it holds the chip's lock: connecting by address or by name. */
  class NinaStack {
    const chip: Nina
    const mode: byte

    constructor (chip: Nina)
      ensures this.chip == chip && mode == TCP_MODE
    {
      this.chip := chip;
      mode := TCP_MODE;
    }

    constructor NewTls(chip: Nina)
      ensures this.chip == chip && mode == TLS_MODE
    {
      this.chip := chip;
      mode := TLS_MODE;
    }

    /** IPv6 is refused without touching the chip. */
    method Connect(remote: SocketAddr) returns (r: Result<byte>)
      requires chip.Valid()
      modifies chip
      ensures chip.Valid()
      ensures remote.V6? ==> r == Err(Unsupported) && chip.log == old(chip.log) && chip.line == old(chip.line)
      ensures remote.V4? ==>
                Ran(old(chip.log), chip.log,
                    Ready(Start(Machine.Connect(Dial(None, remote.ip, remote.port, mode, 40)))),
                    Ready(Done(if r.Ok? then Ok(Slot(r.value)) else Err(r.error))))
    {
      match remote {
        case V6(_, _) =>
          return Err(Unsupported);
        case V4(ip, port) =>
          r := chip.Establish(Dial(None, ip, port, mode, 40));
      }
    }

    method ConnectHostname(host: seq<byte>, port: nat) returns (r: Result<byte>)
      requires chip.Valid()
      modifies chip
      ensures chip.Valid()
      ensures Ran(old(chip.log), chip.log,
                  Ready(Start(ConnectHost(host, Dial(Some(host), [], port, mode, 80)))),
                  Ready(Done(if r.Ok? then Ok(Slot(r.value)) else Err(r.error))))
    {
      hide After;
      ghost var c := Ready(DnsAsk(host, Some(Dial(Some(host), [], port, mode, 80))));
      var ip := chip.DnsLookup(host, Some(Dial(Some(host), [], port, mode, 80)));
      if ip.Err? {
        return Err(ip.error);
      }
      ghost var before := chip.log;
      var dial := Dial(Some(host), ip.value, port, mode, 80);
      r := chip.Establish(dial);
      RanThen(old(chip.log), before, chip.log, c, Ready(Open(dial)),
              Ready(Done(if r.Ok? then Ok(Slot(r.value)) else Err(r.error))));
    }
  }
}
