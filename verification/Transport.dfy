/** transport/tcp: the socket's sending side, and the partial-send loop over it. */
module Transport {
  class Socket {
    /** Every byte the peer has been sent, in order. */
    var wire: string
    /** How many more signals will interrupt a send; any finite number. */
    var interrupts: nat
    /** How many sends have failed: an error other than EINTR, or no byte taken. */
    ghost var failures: nat

    constructor (signals: nat)
      ensures wire == "" && interrupts == signals && failures == 0
    {
      wire := "";
      interrupts := signals;
      failures := 0;
    }

    /** send(2): any non-empty or empty prefix goes out, or nothing and an error, EINTR among them. */
    method Send(data: string) returns (sent: int, eintr: bool)
      modifies this
      ensures -1 <= sent <= |data| && (eintr ==> sent < 0)
      ensures sent >= 0 ==> wire == old(wire) + data[..sent] && interrupts == old(interrupts)
      ensures sent < 0 ==> wire == old(wire)
      ensures eintr ==> interrupts < old(interrupts)
      ensures failures == old(failures) + if sent > 0 || eintr then 0 else 1
    {
      eintr := *;
      if eintr && interrupts > 0 {
        interrupts := interrupts - 1;
        return -1, true;
      }
      sent := *;
      if sent < 0 || sent > |data| {
        failures := failures + 1;
        return -1, false;
      }
      wire := wire + data[..sent];
      failures := failures + if sent > 0 then 0 else 1;
      return sent, false;
    }
  }

  /**
   tcp_server_send(): whatever the kernel answers, the bytes on the wire are a
   prefix of the data, and the result is 0 exactly when all of them went out, which
   is exactly when no send failed; interrupted sends are repeated.
   */
  method TcpServerSend(sock: Socket, data: string) returns (rc: int, ghost sent: nat)
    modifies sock
    ensures sent <= |data| && sock.wire == old(sock.wire) + data[..sent]
    ensures rc == 0 || rc == -1
    ensures rc == 0 <==> data != "" && sent == |data|
    ensures sock.failures >= old(sock.failures)
    ensures rc == 0 <==> data != "" && sock.failures == old(sock.failures)
  {
    sent := 0;
    if data == "" {
      return -1, sent;
    }
    var total := 0;
    while total < |data|
      invariant 0 <= total == sent <= |data|
      invariant sock.wire == old(sock.wire) + data[..total] && sock.failures == old(sock.failures)
      decreases |data| - total, sock.interrupts
    {
      var n, eintr := sock.Send(data[total..]);
      if n < 0 {
        if eintr {
          continue;
        }
        return -1, sent;
      }
      if n == 0 {
        return -1, sent;
      }
      assert data[..total] + data[total..][..n] == data[..total + n];
      total := total + n;
      sent := total;
    }
    rc := 0;
  }

  /** gateway_output_handler(): empty output is refused, everything else is sent. */
  method OutputHandler(sock: Socket, data: string) returns (rc: int, ghost sent: nat)
    modifies sock
    ensures sent <= |data| && sock.wire == old(sock.wire) + data[..sent]
    ensures rc == 0 || rc == -1
    ensures rc == 0 <==> data != "" && sent == |data|
    ensures sock.failures >= old(sock.failures)
    ensures rc == 0 <==> data != "" && sock.failures == old(sock.failures)
  {
    sent := 0;
    if data == "" {
      return -1, sent;
    }
    rc, sent := TcpServerSend(sock, data);
  }
}
