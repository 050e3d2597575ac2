// The device on any stream of bytes: simulator.py, _feed_byte and
// _build_response, with the bytes written out.

module Sessions {
  import opened Bytes
  import opened Escaping
  import opened Framing
  import opened Checksums
  import opened Models
  import opened Devices

  // ------------------------------------------------------------------- answers

  // The longest known command the frame carries.
  predicate Longest(p: Plant, f: seq<byte>, c: Command) {
    && c in p.commands && Matches(c, f)
    && forall d :: d in p.commands && Matches(d, f) ==> |d| <= |c|
  }

  lemma {:induction false} LongestIsBest(p: Plant, f: seq<byte>, c: Command)
    requires Longest(p, f, c)
    ensures BestMatch(p.commands, f) == Some(c)
  {
    BestMatchIsLongest(p.commands, f);
    MatchIsPrefix(c, BestMatch(p.commands, f).value, f);
  }

  // The frame that is kept of a set frame.
  ghost predicate Kept(g: seq<byte>, f: seq<byte>) {
    && |g| == |f| >= 5 && g[0] == f[0] && g[1] == 0x00 && g[3..] == f[3..]
    && g[2] == (Sum(g[..2]) + Sum(g[3..|g| - 2])) % 256
  }

  lemma {:induction false} StoredIsKept(f: seq<byte>)
    requires |f| >= 5
    ensures Kept(Stored(f), f)
  {
    var g := Stored(f);
    SumAppend(g[..2], g[3..|g| - 2]);
  }

  // A set frame for a known command is kept and confirmed, or refused with the code
  // of the device; every other frame for it is answered with what is kept, and
  // changes nothing.
  lemma {:induction false} KnownIsAnswered(p: Plant, f: seq<byte>, c: Command)
    requires |f| >= 5 && c in p.store && Longest(p, f, c)
    ensures f[1] != 0x80 ==> Respond(p, f) == (p, p.store[c])
    ensures f[1] == 0x80 && p.refuses(f).Some? ==> Respond(p, f) == (p, Frame(p.refuses(f).value, c))
    ensures f[1] == 0x80 && p.refuses(f).None? ==>
              var (p', response) := Respond(p, f);
              && response == Frame(0x80, c)
              && c in p'.store && Kept(p'.store[c], f) && p' == p.(store := p.store[c := p'.store[c]])
  {
    LongestIsBest(p, f, c);
    StoredIsKept(f);
  }

  // A frame for no known command is answered with the error 0x03 and the byte
  // behind its checksum, and one that is too short with a fixed one.
  lemma {:induction false} UnknownIsAnswered(p: Plant, f: seq<byte>)
    requires forall c :: c in p.commands ==> !Matches(c, f)
    ensures |f| < 4 ==> Respond(p, f) == (p, [0x01, 0x00, 0x00, 0x00, 0x10, 0x03])
    ensures |f| == 4 ==> Respond(p, f) == (p, Frame(0x03, [0x00]))
    ensures |f| >= 5 ==> Respond(p, f) == (p, Frame(0x03, [f[3]]))
  {
    BestMatchIsLongest(p.commands, f);
    assert [0x01, 0x00, 0x00, 0x00] + FOOTER == [0x01, 0x00, 0x00, 0x00, 0x10, 0x03];
    if |f| >= 5 {
      assert f[3..4] == [f[3]];
    }
  }

  // ----------------------------------------------------------------- sessions

  // These bytes are taken in as a frame: six or more that end one, and no fewer do.
  predicate TakenIn(e: seq<byte>) {
    |e| >= 6 && FrameEnd(e) && forall n :: 6 <= n < |e| ==> !FrameEnd(e[..n])
  }

  lemma {:induction false} FeedsOn(d: Device, a: seq<byte>, b: seq<byte>)
    ensures var (d1, out1) := Feed(d, a);
            var (d2, out2) := Feed(d1, b);
            Feed(d, a + b) == (d2, out1 + out2)
    decreases |a|
  {
    if a == [] {
      assert a + b == b && [] + Feed(d, b).1 == Feed(d, b).1;
    } else {
      var (d0, out0) := FeedByte(d, a[0]);
      assert (a + b)[0] == a[0] && (a + b)[1..] == a[1..] + b;
      FeedsOn(d0, a[1..], b);
      Associate(out0, Feed(d0, a[1..]).1, Feed(Feed(d0, a[1..]).0, b).1);
    }
  }

  lemma NothingBefore(s: seq<byte>)
    ensures [] + s == s
  {
  }

  // An idle device hears nothing but 0x02, and one that waits to be told to answer
  // nothing but 0x10.
  lemma {:induction false} NoiseIsIgnored(d: Device, noise: seq<byte>)
    requires (d.phase == Idle && 0x02 !in noise) || (d.phase == AwaitAck && 0x10 !in noise)
    ensures Feed(d, noise) == (d, [])
    decreases |noise|
  {
    if noise != [] {
      assert noise[0] in noise;
      NoiseIsIgnored(d, noise[1..]);
      NothingBefore([]);
    }
  }

  lemma {:induction false} FrameIsTakenIn(d: Device, e: seq<byte>, n: nat)
    requires TakenIn(e) && n < |e| && d.phase == Collecting && d.buffer == e[..n]
    ensures Feed(d, e[n..]) == (d.(phase := AwaitAck, buffer := e, pending := Unescape(e)), [0x10, 0x02])
    decreases |e| - n
  {
    FeedMore(d, e, n);
    BufferGrows(d, e, n);
    var (d1, out1) := FeedByte(d, e[n]);
    if n + 1 == |e| {
      assert e[n + 1..] == [] && out1 + [] == out1;
    } else {
      FrameIsTakenIn(d1, e, n + 1);
      assert [] + DATA_AVAILABLE == DATA_AVAILABLE;
    }
  }

  lemma BufferGrows(d: Device, e: seq<byte>, n: nat)
    requires TakenIn(e) && n < |e| && d.phase == Collecting && d.buffer == e[..n]
    ensures FeedByte(d, e[n]) ==
            if n + 1 == |e| then (d.(phase := AwaitAck, buffer := e, pending := Unescape(e)), DATA_AVAILABLE)
            else (d.(buffer := e[..n + 1]), [])
  {
    assert e[..n] + [e[n]] == e[..n + 1];
    assert n + 1 == |e| ==> e[..n + 1] == e;
  }

  // A whole session, whatever noise is around it: the greeting is answered, the
  // frame announced, and the response to its de-escaped bytes sent.
  lemma {:induction false} SessionIsAnswered(d: Device, before: seq<byte>, e: seq<byte>, between: seq<byte>)
    requires d.phase == Idle && 0x02 !in before && TakenIn(e) && 0x10 !in between
    ensures var (p', response) := Respond(d.plant, Unescape(e));
            Feed(d, before + ([0x02] + (e + (between + [0x10])))) ==
            (Device(Idle, e, Unescape(e), p'), [0x10] + ([0x10, 0x02] + Escape(response)))
  {
    NoiseIsIgnored(d, before);
    FeedsOn(d, before, [0x02] + (e + (between + [0x10])));
    NothingBefore(Feed(d, [0x02] + (e + (between + [0x10]))).1);
    FeedOne(d, 0x02);
    FeedsOn(d, [0x02], e + (between + [0x10]));
    FrameIsAnswered(d.(phase := Collecting, buffer := []), e, between);
  }

  lemma {:induction false} FrameIsAnswered(d: Device, e: seq<byte>, between: seq<byte>)
    requires d.phase == Collecting && d.buffer == [] && TakenIn(e) && 0x10 !in between
    ensures var (p', response) := Respond(d.plant, Unescape(e));
            Feed(d, e + (between + [0x10])) ==
            (Device(Idle, e, Unescape(e), p'), [0x10, 0x02] + Escape(response))
  {
    assert e[0..] == e;
    FrameIsTakenIn(d, e, 0);
    FeedsOn(d, e, between + [0x10]);
    AnswerIsGiven(d.(phase := AwaitAck, buffer := e, pending := Unescape(e)), between);
  }

  lemma {:induction false} AnswerIsGiven(d: Device, between: seq<byte>)
    requires d.phase == AwaitAck && 0x10 !in between
    ensures var (p', response) := Respond(d.plant, d.pending);
            Feed(d, between + [0x10]) == (d.(phase := Idle, plant := p'), Escape(response))
  {
    NoiseIsIgnored(d, between);
    FeedOne(d, 0x10);
    NothingBefore(FeedByte(d, 0x10).1);
    FeedsOn(d, between, [0x10]);
  }

  // ------------------------------------------------------------ what changes

  // One byte changes a register exactly when it tells the device to answer a set
  // frame that it does not refuse; then it is the register of the longest command,
  // and no other changes.
  lemma {:induction false} OnlySetsChange(d: Device, b: byte, c: Command)
    requires c in d.plant.store
    ensures var p, p' := d.plant, FeedByte(d, b).0.plant;
            && p'.commands == p.commands && p'.refuses == p.refuses && c in p'.store
            && (p'.store[c] != p.store[c] ==>
                  && d.phase == AwaitAck && b == 0x10
                  && |d.pending| >= 5 && d.pending[1] == 0x80 && p.refuses(d.pending).None?
                  && Longest(p, d.pending, c) && Kept(p'.store[c], d.pending))
  {
    var p, p', f := d.plant, FeedByte(d, b).0.plant, d.pending;
    if p'.store[c] != p.store[c] {
      BestMatchIsLongest(p.commands, f);
      StoredIsKept(f);
    }
  }

  // So a stream of bytes in which the device is never told to answer changes nothing.
  lemma {:induction false} UnansweredChangesNothing(d: Device, s: seq<byte>)
    requires 0x10 !in s
    ensures Feed(d, s).0.plant == d.plant
    decreases |s|
  {
    if s != [] {
      assert s[0] in s;
      UnansweredChangesNothing(FeedByte(d, s[0]).0, s[1..]);
    }
  }
}
