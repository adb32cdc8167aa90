/** The client's receive loop: the server's framing over again, with the client's handlers. */
module ClientLoop {
  import opened Bits
  import opened Wire
  import opened Framing
  import opened ReceiveBuffer

  /** Once the loop spins it spins for ever, so a run that ends well never spun. */
  lemma {:induction false} NeverSpun(handled: set<uint32>, chunks: seq<seq<byte>>, k: nat)
    requires k <= |chunks| && !Run(handled, chunks).spinning && Fits(handled, chunks)
    ensures !Run(handled, chunks[..k]).spinning && Fits(handled, chunks[..k])
  {
    if k == |chunks| {
      assert chunks[..k] == chunks;
    } else {
      var n := |chunks| - 1;
      NeverSpun(handled, chunks[..n], k);
      assert chunks[..n][..k] == chunks[..k];
    }
  }

  lemma {:induction false} LastCompletion(handled: set<uint32>, prefix: seq<seq<byte>>, chunk: seq<byte>)
    requires Fits(handled, prefix + [chunk])
    ensures |chunk| <= BUF_SIZE - |Run(handled, prefix).retained|
    ensures Run(handled, prefix + [chunk]) == Complete(handled, Run(handled, prefix), chunk)
  {
    assert (prefix + [chunk])[..|prefix|] == prefix;
  }

  /** In a run that ends well, the next delivery fits and completes without spinning. */
  lemma {:induction false} RunContinues(handled: set<uint32>, chunks: seq<seq<byte>>, k: nat)
    requires k < |chunks| && !Run(handled, chunks).spinning && Fits(handled, chunks)
    ensures var r := Run(handled, chunks[..k]);
            && |chunks[k]| <= BUF_SIZE - |r.retained|
            && !Complete(handled, r, chunks[k]).spinning
            && Run(handled, chunks[..k + 1]) == Complete(handled, r, chunks[k])
  {
    assert chunks[..k + 1] == chunks[..k] + [chunks[k]];
    NeverSpun(handled, chunks, k + 1);
    LastCompletion(handled, chunks[..k], chunks[k]);
  }

  class Client {
    const buffer: ReceiveBuffer

    constructor ()
      ensures fresh(buffer) && fresh(buffer.data) && buffer.handled == CLIENT_HANDLERS
      ensures buffer.Valid() && buffer.Now() == FRESH_RECEIVER
    {
      buffer := new ReceiveBuffer(CLIENT_HANDLERS);
    }

    /** Runs the loop over the receives that the socket delivers, none longer than was posted. */
    method ReceiveWork(deliveries: seq<seq<byte>>)
      requires buffer.Valid() && buffer.Now() == FRESH_RECEIVER && buffer.handled == CLIENT_HANDLERS
      requires Fits(CLIENT_HANDLERS, deliveries) && !Run(CLIENT_HANDLERS, deliveries).spinning
      modifies buffer, buffer.data
      ensures buffer.Valid() && buffer.Now() == Run(CLIENT_HANDLERS, deliveries)
      ensures ArgumentsMatch(PacketsOf(buffer.Now().fates), buffer.arguments)
    {
      for k := 0 to |deliveries|
        invariant buffer.Valid() && buffer.Now() == Run(CLIENT_HANDLERS, deliveries[..k])
      {
        RunContinues(CLIENT_HANDLERS, deliveries, k);
        buffer.OnRecv(deliveries[k]);
      }
      assert deliveries[..|deliveries|] == deliveries;
    }
  }
}
