/**
 * A stream that mixes packets of handled types with others. An unhandled packet stops the dispatch
 * loop, and what stands behind it is dropped with it by the next completion that does not fill the
 * buffer; so it hides the packets that arrive together with it.
 */
module MixedStream {
  import opened Bits
  import opened Framing
  import opened Wire

  predicate IsHandled(handled: set<uint32>, p: Packet) {
    |p| >= HEADER_SIZE && IOTypeOf(p) in handled
  }

  /** The packets of handled types. */
  function Handled(handled: set<uint32>, ps: seq<Packet>): seq<Packet> {
    if ps == [] then []
    else (if IsHandled(handled, ps[0]) then [ps[0]] else []) + Handled(handled, ps[1..])
  }

  /** The packets in front of the first unhandled one. */
  function HandledFront(handled: set<uint32>, ps: seq<Packet>): seq<Packet> {
    if ps == [] || !IsHandled(handled, ps[0]) then [] else [ps[0]] + HandledFront(handled, ps[1..])
  }

  /** No handled packet stands behind an unhandled one. */
  predicate NoneHidden(handled: set<uint32>, ps: seq<Packet>) {
    forall i, j | 0 <= i < j < |ps| && IsHandled(handled, ps[j]) :: IsHandled(handled, ps[i])
  }

  lemma {:induction false} NoneHandled(handled: set<uint32>, ps: seq<Packet>)
    ensures Handled(handled, ps) == [] <==> forall j | 0 <= j < |ps| :: !IsHandled(handled, ps[j])
  {
    if ps != [] {
      NoneHandled(handled, ps[1..]);
      if forall j | 0 <= j < |ps| :: !IsHandled(handled, ps[j]) {
        assert forall j | 0 <= j < |ps[1..]| :: ps[1..][j] == ps[j + 1];
      }
      if Handled(handled, ps) == [] {
        forall j | 0 <= j < |ps| ensures !IsHandled(handled, ps[j]) {
          assert j > 0 ==> ps[1..][j - 1] == ps[j];
        }
      }
    }
  }

  /** The front holds all handled packets exactly when none is hidden. */
  lemma {:induction false} FrontIsAllIff(handled: set<uint32>, ps: seq<Packet>)
    ensures HandledFront(handled, ps) <= Handled(handled, ps)
    ensures |HandledFront(handled, ps)| == |Handled(handled, ps)| <==> NoneHidden(handled, ps)
  {
    if ps != [] {
      var rest := ps[1..];
      FrontIsAllIff(handled, rest);
      NoneHandled(handled, ps);
      if IsHandled(handled, ps[0]) {
        HiddenBehind(handled, ps);
      } else if NoneHidden(handled, ps) {
        forall j | 0 <= j < |ps| ensures !IsHandled(handled, ps[j]) {
        }
      }
    }
  }

  lemma {:induction false} HiddenBehind(handled: set<uint32>, ps: seq<Packet>)
    requires ps != [] && IsHandled(handled, ps[0])
    ensures NoneHidden(handled, ps) <==> NoneHidden(handled, ps[1..])
  {
    var rest := ps[1..];
    if NoneHidden(handled, ps) {
      forall i, j | 0 <= i < j < |rest| && IsHandled(handled, rest[j]) ensures IsHandled(handled, rest[i]) {
        assert rest[i] == ps[i + 1] && rest[j] == ps[j + 1];
      }
    }
    if NoneHidden(handled, rest) {
      forall i, j | 0 <= i < j < |ps| && IsHandled(handled, ps[j]) ensures IsHandled(handled, ps[i]) {
        assert i > 0 ==> rest[i - 1] == ps[i] && rest[j - 1] == ps[j];
      }
    }
  }

  // ---- Parsing ----

  /** The loop cuts off handled packets until the first unhandled one; its rest starts at the last
      boundary of those packets. */
  lemma {:induction false} ParseMixed(handled: set<uint32>, ps: seq<Packet>, d: seq<byte>)
    requires (forall p <- ps :: WellFormed(p)) && d <= Flatten(ps)
    ensures var q, front := ParseStream(handled, d), HandledFront(handled, ps);
            && q.Parsed? && q.packets <= front && |q.rest| == |d| - LastBoundary(front, |d|)
            && (d == Flatten(ps) ==> q.packets == front)
  {
    if ps != [] {
      var p := ps[0];
      assert p in ps;
      if |d| < |p| {
        assert d == Flatten(ps)[..|d|] == p[..|d|];
        PartStops(handled, p, |d|);
      } else {
        var e := d[|p|..];
        assert d == p + e && e <= Flatten(ps[1..]);
        FrontUnaffected(p, e);
        if IsHandled(handled, p) {
          assert forall q <- ps[1..] :: q in ps;
          ParseMixed(handled, ps[1..], e);
          assert d[..|p|] == p && HandledFront(handled, ps)[1..] == HandledFront(handled, ps[1..]);
        } else {
          StopsUnhandled(handled, d);
        }
      }
    }
  }

  /** A proper front part of a packet holds no packet, whatever its type. */
  lemma {:induction false} PartStops(handled: set<uint32>, p: Packet, m: nat)
    requires WellFormed(p) && m < |p|
    ensures ParseStream(handled, p[..m]) == Parsed([], p[..m])
  {
    if m >= HEADER_SIZE {
      assert p == p[..m] + p[m..];
      FrontUnaffected(p[..m], p[m..]);
    }
  }

  // ---- Bursts ----

  /** Each completion fills the buffer, which held what had come since the last boundary of `front`. */
  predicate FillsEach(front: seq<Packet>, lengths: seq<nat>) {
    lengths == []
    || (FillsEach(front, lengths[..|lengths| - 1])
        && Sum(lengths) - LastBoundary(front, Sum(lengths[..|lengths| - 1])) == BUF_SIZE)
  }

  /** A burst of completions: each fills the buffer but the last, which may fill it only if it leaves
      nothing of batch `b` behind. */
  predicate Burst(handled: set<uint32>, b: seq<Packet>, lengths: seq<nat>) {
    var front := HandledFront(handled, b);
    && lengths != [] && FillsEach(front, lengths[..|lengths| - 1])
    && (Sum(lengths) - LastBoundary(front, Sum(lengths[..|lengths| - 1])) != BUF_SIZE || front == b)
  }

  /** A batch that arrives in one completion is a burst if it does not fill the buffer, or holds no
      unhandled packet. */
  lemma {:induction false} OneCompletion(handled: set<uint32>, b: seq<Packet>)
    requires |Flatten(b)| != BUF_SIZE || HandledFront(handled, b) == b
    ensures Burst(handled, b, Lengths([Flatten(b)]))
  {
    assert [Flatten(b)][..0] == [];
    assert Lengths([Flatten(b)]) == [|Flatten(b)|];
    assert [|Flatten(b)|][..0] == [];
  }

  lemma {:induction false} WholeBoundary(ps: seq<Packet>)
    ensures LastBoundary(ps, |Flatten(ps)|) == |Flatten(ps)|
  {
    if ps != [] {
      WholeBoundary(ps[1..]);
    }
  }

  /** Between bursts: nothing is retained. */
  predicate Settled(r: Receiver) {
    !r.spinning && r.retained == []
  }

  lemma {:induction false} RunPush(handled: set<uint32>, chunks: seq<seq<byte>>, chunk: seq<byte>)
    ensures Run(handled, chunks + [chunk]) == Complete(handled, Run(handled, chunks), chunk)
  {
    assert (chunks + [chunk])[..|chunks|] == chunks;
  }

  lemma {:induction false} LengthsPush(chunks: seq<seq<byte>>)
    requires chunks != []
    ensures var n := |chunks| - 1;
            && |Lengths(chunks)| == |chunks| && Lengths(chunks)[..n] == Lengths(chunks[..n])
            && Sum(Lengths(chunks)) == |Flatten(chunks)| && Sum(Lengths(chunks[..n])) == |Flatten(chunks[..n])|
            && Flatten(chunks) == Flatten(chunks[..n]) + chunks[n]
  {
    SumOfLengths(chunks);
    SumOfLengths(chunks[..|chunks| - 1]);
    FlattenLast(chunks);
  }

  /** A receiver that had dispatched `base` agrees with the parser on what has come since. */
  predicate AgreesSince(handled: set<uint32>, base: seq<Packet>, stream: seq<byte>, r: Receiver) {
    && !r.spinning
    && ParseStream(handled, stream).Parsed?
    && PacketsOf(r.fates) == base + ParseStream(handled, stream).packets
    && r.retained == ParseStream(handled, stream).rest
  }

  /** What the buffer holds with the next chunk, by lengths alone. */
  lemma {:induction false} NextLength(handled: set<uint32>, base: seq<Packet>, b: seq<Packet>, stream: seq<byte>,
                                      r: Receiver, chunk: seq<byte>)
    requires AgreesSince(handled, base, stream, r) && (forall p <- b :: WellFormed(p)) && stream <= Flatten(b)
    ensures |r.retained + chunk| == |stream| + |chunk| - LastBoundary(HandledFront(handled, b), |stream|)
  {
    ParseMixed(handled, b, stream);
  }

  /** One more completion of a burst. */
  lemma {:induction false} NextCompletion(handled: set<uint32>, base: seq<Packet>, stream: seq<byte>, r: Receiver,
                                          chunk: seq<byte>)
    requires AgreesSince(handled, base, stream, r) && ParseStream(handled, stream + chunk).Parsed?
    ensures var q, r' := ParseStream(handled, stream + chunk), Complete(handled, r, chunk);
            && !r'.spinning && PacketsOf(r'.fates) == base + q.packets
            && r'.retained == Kept(|r.retained + chunk| == BUF_SIZE, q.rest)
  {
    ParseResumes(handled, stream, chunk);
    CompletePackets(handled, r, chunk);
    InOrder(base, ParseStream(handled, stream).packets, ParseStream(handled, r.retained + chunk).packets);
  }

  lemma {:induction false} InOrder(xs: seq<Packet>, ys: seq<Packet>, zs: seq<Packet>)
    ensures xs + ys + zs == xs + (ys + zs)
  {
  }

  lemma {:induction false} CompletePackets(handled: set<uint32>, r: Receiver, chunk: seq<byte>)
    requires !r.spinning && ParseStream(handled, r.retained + chunk).Parsed?
    ensures var q, r' := ParseStream(handled, r.retained + chunk), Complete(handled, r, chunk);
            && !r'.spinning && PacketsOf(r'.fates) == PacketsOf(r.fates) + q.packets
            && r'.retained == Kept(|r.retained + chunk| == BUF_SIZE, q.rest)
  {
    CompleteAccounts(handled, r, chunk);
  }

  /** A completion of a burst on a settled receiver's run. */
  lemma {:induction false} BurstStep(handled: set<uint32>, base: seq<Packet>, b: seq<Packet>, stream: seq<byte>,
                                     r: Receiver, chunk: seq<byte>)
    requires AgreesSince(handled, base, stream, r) && (forall p <- b :: WellFormed(p)) && stream + chunk <= Flatten(b)
    ensures var full := |stream| + |chunk| - LastBoundary(HandledFront(handled, b), |stream|) == BUF_SIZE;
            var r' := Complete(handled, r, chunk);
            && ParseStream(handled, stream + chunk).Parsed?
            && (full ==> AgreesSince(handled, base, stream + chunk, r'))
            && (!full ==> Settled(r') && PacketsOf(r'.fates) == base + ParseStream(handled, stream + chunk).packets)
  {
    assert stream <= stream + chunk;
    NextLength(handled, base, b, stream, r, chunk);
    ParseMixed(handled, b, stream + chunk);
    NextCompletion(handled, base, stream, r, chunk);
  }

  lemma {:induction false} LastCompletion(handled: set<uint32>, before: seq<seq<byte>>, chunks: seq<seq<byte>>)
    requires chunks != []
    ensures var n := |chunks| - 1;
            && Run(handled, before + chunks) == Complete(handled, Run(handled, before + chunks[..n]), chunks[n])
            && Flatten(chunks) == Flatten(chunks[..n]) + chunks[n]
  {
    var n := |chunks| - 1;
    FlattenLast(chunks);
    assert before + chunks == (before + chunks[..n]) + [chunks[n]];
    RunPush(handled, before + chunks[..n], chunks[n]);
  }

  lemma {:induction false} LengthsNonEmpty(chunks: seq<seq<byte>>)
    requires Lengths(chunks) != []
    ensures chunks != []
  {
  }

  /** The last completion of a run that fills the buffer each time, by lengths. */
  lemma {:induction false} FillsLast(front: seq<Packet>, chunks: seq<seq<byte>>)
    requires chunks != [] && FillsEach(front, Lengths(chunks))
    ensures var n := |chunks| - 1;
            && FillsEach(front, Lengths(chunks[..n]))
            && |Flatten(chunks[..n])| + |chunks[n]| - LastBoundary(front, |Flatten(chunks[..n])|) == BUF_SIZE
  {
    LengthsPush(chunks);
  }

  /** The last completion of a burst, by lengths. */
  lemma {:induction false} BurstLast(handled: set<uint32>, b: seq<Packet>, chunks: seq<seq<byte>>)
    requires Burst(handled, b, Lengths(chunks))
    ensures chunks != []
    ensures var n, front := |chunks| - 1, HandledFront(handled, b);
            && FillsEach(front, Lengths(chunks[..n]))
            && (|Flatten(chunks[..n])| + |chunks[n]| - LastBoundary(front, |Flatten(chunks[..n])|) != BUF_SIZE
                || front == b)
  {
    LengthsNonEmpty(chunks);
    LengthsPush(chunks);
  }

  lemma {:induction false} FillingRun(handled: set<uint32>, before: seq<seq<byte>>, b: seq<Packet>,
                                      chunks: seq<seq<byte>>, base: seq<Packet>)
    requires Settled(Run(handled, before)) && base == PacketsOf(Run(handled, before).fates)
    requires forall p <- b :: WellFormed(p)
    requires Flatten(chunks) <= Flatten(b) && FillsEach(HandledFront(handled, b), Lengths(chunks))
    ensures AgreesSince(handled, base, Flatten(chunks), Run(handled, before + chunks))
  {
    if chunks == [] {
      assert before + chunks == before;
    } else {
      var n := |chunks| - 1;
      LastCompletion(handled, before, chunks);
      FillsLast(HandledFront(handled, b), chunks);
      FillingRun(handled, before, b, chunks[..n], base);
      BurstStep(handled, base, b, Flatten(chunks[..n]), Run(handled, before + chunks[..n]), chunks[n]);
    }
  }

  /** A burst that brings a batch: its handled front is dispatched, and nothing is retained. */
  lemma {:induction false} BurstRun(handled: set<uint32>, before: seq<seq<byte>>, b: seq<Packet>,
                                    chunks: seq<seq<byte>>, base: seq<Packet>)
    requires Settled(Run(handled, before)) && base == PacketsOf(Run(handled, before).fates)
    requires forall p <- b :: WellFormed(p)
    requires Flatten(chunks) == Flatten(b) && Burst(handled, b, Lengths(chunks))
    ensures Settled(Run(handled, before + chunks))
    ensures PacketsOf(Run(handled, before + chunks).fates) == base + HandledFront(handled, b)
  {
    BurstLast(handled, b, chunks);
    var n := |chunks| - 1;
    LastCompletion(handled, before, chunks);
    FillingRun(handled, before, b, chunks[..n], base);
    BurstStep(handled, base, b, Flatten(chunks[..n]), Run(handled, before + chunks[..n]), chunks[n]);
    ParseMixed(handled, b, Flatten(b));
    WholeBoundary(b);
  }

  /** Batches of well-formed packets, each brought by a burst of its own. */
  ghost predicate Brings(handled: set<uint32>, bs: seq<seq<Packet>>, bursts: seq<seq<seq<byte>>>) {
    && |bursts| == |bs|
    && forall i | 0 <= i < |bs| ::
         && (forall p <- bs[i] :: WellFormed(p)) && Flatten(bursts[i]) == Flatten(bs[i])
         && Burst(handled, bs[i], Lengths(bursts[i]))
  }

  function Fronts(handled: set<uint32>, bs: seq<seq<Packet>>): seq<Packet> {
    if bs == [] then [] else Fronts(handled, bs[..|bs| - 1]) + HandledFront(handled, bs[|bs| - 1])
  }

  lemma {:induction false} BurstsRun(handled: set<uint32>, bs: seq<seq<Packet>>, bursts: seq<seq<seq<byte>>>)
    requires Brings(handled, bs, bursts)
    ensures Settled(Run(handled, Join(bursts)))
    ensures PacketsOf(Run(handled, Join(bursts)).fates) == Fronts(handled, bs)
  {
    if bs != [] {
      var n := |bs| - 1;
      BurstsRun(handled, bs[..n], bursts[..n]);
      BurstRun(handled, Join(bursts[..n]), bs[n], bursts[n], Fronts(handled, bs[..n]));
    }
  }

  // ---- What is dispatched, exactly ----

  lemma {:induction false} HandledAppend(handled: set<uint32>, ps: seq<Packet>, qs: seq<Packet>)
    ensures Handled(handled, ps + qs) == Handled(handled, ps) + Handled(handled, qs)
  {
    if ps == [] {
      assert ps + qs == qs;
    } else {
      assert (ps + qs)[1..] == ps[1..] + qs;
      HandledAppend(handled, ps[1..], qs);
    }
  }

  lemma {:induction false} SameJoin(xs: seq<Packet>, f: seq<Packet>, ys: seq<Packet>, g: seq<Packet>)
    requires |xs| <= |ys| && f <= g
    ensures xs + f == ys + g <==> xs == ys && |f| == |g|
  {
    if xs + f == ys + g {
      assert |xs| == |ys| && (xs + f)[..|xs|] == xs && (ys + g)[..|xs|] == ys;
    }
  }

  lemma {:induction false} FrontsAreAllIff(handled: set<uint32>, bs: seq<seq<Packet>>)
    ensures |Fronts(handled, bs)| <= |Handled(handled, Join(bs))|
    ensures Fronts(handled, bs) == Handled(handled, Join(bs))
            <==> forall i | 0 <= i < |bs| :: NoneHidden(handled, bs[i])
  {
    if bs != [] {
      var n := |bs| - 1;
      FrontsAreAllIff(handled, bs[..n]);
      FrontIsAllIff(handled, bs[n]);
      HandledAppend(handled, Join(bs[..n]), bs[n]);
      SameJoin(Fronts(handled, bs[..n]), HandledFront(handled, bs[n]), Handled(handled, Join(bs[..n])),
               Handled(handled, bs[n]));
      assert forall i | 0 <= i < n :: bs[..n][i] == bs[i];
    }
  }

  /** Exactly the handled packets of the stream are dispatched, in order, if and only if in no batch a
      handled packet stands behind an unhandled one. */
  lemma {:induction false} MixedStreamIff(handled: set<uint32>, bs: seq<seq<Packet>>, bursts: seq<seq<seq<byte>>>)
    requires Brings(handled, bs, bursts)
    ensures PacketsOf(Run(handled, Join(bursts)).fates) == Handled(handled, Join(bs))
            <==> forall i | 0 <= i < |bs| :: NoneHidden(handled, bs[i])
  {
    BurstsRun(handled, bs, bursts);
    FrontsAreAllIff(handled, bs);
  }

  // ---- Handled packets of several senders ----

  lemma {:induction false} HandledCounts(handled: set<uint32>, ps: seq<Packet>, p: Packet)
    ensures multiset(Handled(handled, ps))[p] == if IsHandled(handled, p) then multiset(ps)[p] else 0
  {
    if ps != [] {
      HandledCounts(handled, ps[1..], p);
      assert ps == [ps[0]] + ps[1..];
    }
  }

  /** Of packets that come from two places, in any order, the handled ones come from both. */
  lemma {:induction false} HandledOfBoth(handled: set<uint32>, all: seq<Packet>, xs: seq<Packet>, ys: seq<Packet>)
    requires multiset(all) == multiset(xs) + multiset(ys)
    ensures multiset(Handled(handled, all)) == multiset(Handled(handled, xs)) + multiset(Handled(handled, ys))
  {
    forall p: Packet
      ensures multiset(Handled(handled, all))[p]
              == (multiset(Handled(handled, xs)) + multiset(Handled(handled, ys)))[p]
    {
      HandledCounts(handled, all, p);
      HandledCounts(handled, xs, p);
      HandledCounts(handled, ys, p);
    }
    SameMultiset(multiset(Handled(handled, all)), multiset(Handled(handled, xs)) + multiset(Handled(handled, ys)));
  }

  lemma {:induction false} SameMultiset(a: multiset<Packet>, b: multiset<Packet>)
    requires forall p: Packet :: a[p] == b[p]
    ensures a == b
  {
    assert forall p <- a :: a[p] == b[p];
    assert forall p <- b :: a[p] == b[p];
  }

  /** The bursts carry the bytes of the batches. */
  lemma {:induction false} BringsBytes(handled: set<uint32>, bs: seq<seq<Packet>>, bursts: seq<seq<seq<byte>>>)
    requires Brings(handled, bs, bursts)
    ensures Flatten(Join(bursts)) == Flatten(Join(bs))
  {
    if bs != [] {
      var n := |bs| - 1;
      BringsBytes(handled, bs[..n], bursts[..n]);
      FlattenAppend(Join(bs[..n]), bs[n]);
      FlattenAppend(Join(bursts[..n]), bursts[n]);
    }
  }
}
