/** The write half of a session: the packet array shared by all senders under one mutex. */
module SendBuffer {
  import opened Options
  import opened Wire
  import opened Sending

  class SendBuffer {
    const data: array<byte>
    var curBytes: nat
    /** The progress of the senders, the bytes handed to the socket call by call, and who keeps the
        mutex after a section. */
    var senders: seq<Sender>
    var sent: seq<seq<byte>>
    var holder: Option<nat>

    ghost predicate Valid()
      reads this
    {
      data.Length == BUF_SIZE && curBytes <= BUF_SIZE
    }

    ghost function Now(): Outgoing
      requires Valid()
      reads this, data
    {
      Outgoing(data[..curBytes], senders, sent, holder)
    }

    constructor (n: nat)
      ensures Valid() && Now() == Start(n) && fresh(data)
    {
      data := new byte[BUF_SIZE](_ => 0);
      curBytes, senders, sent, holder := 0, seq(n, _ => Outside), [], None;
    }

    /** First critical section of SendPacket; without room it calls SendPacket again, locked. */
    method AppendPacket(i: nat, packet: seq<byte>)
      requires Valid() && Enabled(Now(), Append(i, packet))
      modifies this, data
      ensures Valid() && Now() == Apply(old(Now()), Append(i, packet))
    {
      var size := SizeOf(packet);
      if curBytes + size > BUF_SIZE {
        holder, senders := Some(i), senders[i := Retrying(packet)];
        return;
      }
      forall k | 0 <= k < size {
        data[curBytes + k] := packet[k];
      }
      curBytes := curBytes + size;
      senders := senders[i := Appended(size)];
      assert data[..curBytes] == old(data[..curBytes]) + Payload(packet);
    }

    /** Second critical section of SendPacket: the whole buffer goes to the socket. */
    method FlushPackets(i: nat)
      requires Valid() && Enabled(Now(), Flush(i))
      modifies this
      ensures Valid() && Now() == Apply(old(Now()), Flush(i))
    {
      Send();
      senders := senders[i := Outside];
    }

    method Send()
      requires Valid()
      modifies this`sent, this`curBytes
      ensures Valid() && curBytes == 0 && sent == old(sent) + [old(data[..curBytes])]
    {
      sent := sent + [data[..curBytes]];
      curBytes := 0;
    }
  }
}
