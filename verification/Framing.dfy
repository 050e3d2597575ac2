// When escaping can be undone, and where an escaped frame ends: parser.py,
// fix_duplicated_bytes and is_frame_end.

module Framing {
  import opened Bytes
  import opened Escaping

  // ----------------------------------------------------------- round trip

  // The two header bytes are sent verbatim, so they can be taken for the
  // beginning of an escape sequence.
  predicate HeaderMangled(f: seq<byte>)
    requires |f| >= 4
  {
    IsEscapePair(f[0], f[1]) || (|f| > 4 && f[1] == STUFFED && f[2] == STUFFING)
  }

  predicate RoundTrips(f: seq<byte>) {
    || f == []
    || f == [ESCAPE] + FOOTER
    || (|f| >= 4 && LastTwo(f) == FOOTER && !HeaderMangled(f))
  }

  // Escaping is undone exactly on these frames; no other input survives it.
  lemma {:induction false} EscapeRoundTrip(f: seq<byte>)
    ensures Unescape(Escape(f)) == f <==> RoundTrips(f)
  {
    if |f| >= 4 {
      LongRoundTrip(f);
    } else if |f| >= 2 {
      var body := f[..2];
      assert Escape(f)[..|Escape(f)| - 2] == body;
      PassesAreOneDecoder(body);
      assert body[1..] == [body[1]] && body[2..] == [] && body[1..][1..] == [];
    }
  }

  lemma {:induction false} LongRoundTrip(f: seq<byte>)
    requires |f| >= 4
    ensures Unescape(Escape(f)) == f <==> LastTwo(f) == FOOTER && !HeaderMangled(f)
  {
    var body := FirstTwo(f) + Stuff(Middle(f));
    assert Escape(f)[..|Escape(f)| - 2] == body;
    PassesAreOneDecoder(body);
    assert f == FirstTwo(f) + Middle(f) + LastTwo(f);
    DecodeHeader(f[0], f[1], Middle(f));
    assert body == [f[0], f[1]] + Stuff(Middle(f));
  }

  lemma DecodeToken(b: byte, rest: seq<byte>)
    ensures Decode(Token(b) + rest) == [b] + Decode(rest)
  {
    var t := Token(b) + rest;
    if b == ESCAPE || b == STUFFED {
      assert t[2..] == rest;
    } else {
      assert t[1..] == rest;
    }
  }

  lemma {:induction false} DecodeStuffed(s: seq<byte>)
    ensures Decode(Stuff(s)) == s
  {
    if s != [] {
      DecodeStuffed(s[1..]);
      DecodeToken(s[0], Stuff(s[1..]));
    }
  }

  // A verbatim byte in front of a stuffed payload.
  lemma {:induction false} DecodeVerbatim(b: byte, s: seq<byte>)
    ensures if b == STUFFED && s != [] && s[0] == STUFFING
            then |Decode([b] + Stuff(s))| <= |s|
            else Decode([b] + Stuff(s)) == [b] + s
  {
    var t := [b] + Stuff(s);
    assert t[1..] == Stuff(s);
    DecodeStuffed(s);
    if s != [] {
      if b == ESCAPE && s[0] == ESCAPE {
        DecodeVerbatim(ESCAPE, s[1..]);
        assert t[2..] == [ESCAPE] + Stuff(s[1..]);
      } else if b == STUFFED && s[0] == STUFFING {
        DecodeStuffed(s[1..]);
        assert t[2..] == Stuff(s[1..]);
      }
    }
  }

  lemma {:induction false} DecodeHeader(a: byte, b: byte, s: seq<byte>)
    ensures if IsEscapePair(a, b) || (b == STUFFED && s != [] && s[0] == STUFFING)
            then |Decode([a, b] + Stuff(s))| < |s| + 2
            else Decode([a, b] + Stuff(s)) == [a, b] + s
  {
    var t := [a, b] + Stuff(s);
    if IsEscapePair(a, b) {
      assert t[2..] == Stuff(s);
      DecodeStuffed(s);
    } else {
      assert t[1..] == [b] + Stuff(s);
      DecodeVerbatim(b, s);
    }
  }

  // What every frame of the protocol looks like: a header that needs no
  // escaping, and the footer.
  predicate IsFrame(f: seq<byte>) {
    |f| >= 4 && {f[0], f[1]} !! {ESCAPE, STUFFED} && LastTwo(f) == FOOTER
  }

  // -------------------------------------------------------------- framing

  function TrailingEscapes(s: seq<byte>): nat {
    if s != [] && Last(s) == ESCAPE then 1 + TrailingEscapes(Front(s)) else 0
  }

  predicate FrameEnd(s: seq<byte>) {
    |s| >= 2 && Last(s) == END && TrailingEscapes(Front(s)) % 2 == 1
  }

  method IsFrameEnd(buffer: seq<byte>, length: nat) returns (end: bool)
    requires length <= |buffer|
    ensures end == FrameEnd(buffer[..length])
  {
    if length < 2 || buffer[length - 1] != END || buffer[length - 2] != ESCAPE {
      assert length >= 2 ==> Last(Front(buffer[..length])) == buffer[length - 2];
      return false;
    }
    var escapes := 0;
    var index := length - 2;
    assert Front(buffer[..length]) == buffer[..index + 1];
    while index >= 0 && buffer[index] == ESCAPE
      invariant -1 <= index < length
      invariant TrailingEscapes(Front(buffer[..length])) == escapes + TrailingEscapes(buffer[..index + 1])
    {
      assert Front(buffer[..index + 1]) == buffer[..index];
      escapes := escapes + 1;
      index := index - 1;
    }
    assert index >= 0 ==> Last(buffer[..index + 1]) == buffer[index];
    return escapes % 2 == 1;
  }

  lemma TrailingEscapesOne(s: seq<byte>, b: byte)
    ensures TrailingEscapes(s + [b]) == if b == ESCAPE then TrailingEscapes(s) + 1 else 0
  {
    assert Front(s + [b]) == s;
  }

  predicate SettledBefore(s: seq<byte>) {
    TrailingEscapes(s) % 2 == 0
  }

  // Inside a stuffed payload every run of 0x10 is even once a token is
  // complete, so nothing there ends a frame.
  lemma {:induction false} NoEndInsidePayload(base: seq<byte>, s: seq<byte>, n: nat)
    requires SettledBefore(base)
    requires |base| < n <= |base| + |Stuff(s)|
    ensures !FrameEnd((base + Stuff(s))[..n])
    decreases |s|
  {
    var t := Token(s[0]);
    var next := base + t;
    var whole := base + Stuff(s);
    assert whole == next + Stuff(s[1..]);
    SettledAfterToken(base, s[0]);
    if n <= |next| {
      if n == |base| + 1 {
        assert Front(whole[..n]) == base;
      } else {
        assert Last(whole[..n]) == t[1];
      }
    } else {
      NoEndInsidePayload(next, s[1..], n);
    }
  }

  lemma {:induction false} SettledAfterToken(base: seq<byte>, b: byte)
    requires SettledBefore(base)
    ensures SettledBefore(base + Token(b))
  {
    TrailingEscapesOne(base, b);
    if b == ESCAPE {
      TrailingEscapesOne(base + [b], ESCAPE);
      assert base + Token(b) == base + [b] + [ESCAPE];
    } else if b == STUFFED {
      TrailingEscapesOne(base + [b], STUFFING);
      assert base + Token(b) == base + [b] + [STUFFING];
    }
  }

  lemma {:induction false} SettledAfterPayload(base: seq<byte>, s: seq<byte>)
    requires SettledBefore(base)
    ensures SettledBefore(base + Stuff(s))
    decreases |s|
  {
    if s == [] {
      assert base + Stuff(s) == base;
    } else {
      var next := base + Token(s[0]);
      SettledAfterToken(base, s[0]);
      SettledAfterPayload(next, s[1..]);
      StuffBehind(base, s);
    }
  }

  lemma StuffBehind(base: seq<byte>, s: seq<byte>)
    requires s != []
    ensures base + Stuff(s) == base + Token(s[0]) + Stuff(s[1..])
  {
  }

  // The end of an escaped frame is recognised at its last byte and nowhere
  // before. Only the header has to avoid 0x10.
  lemma {:induction false} ExactFraming(f: seq<byte>, n: nat)
    requires |f| >= 4 && f[0] != ESCAPE && f[1] != ESCAPE && LastTwo(f) == FOOTER
    requires n <= |Escape(f)|
    ensures FrameEnd(Escape(f)[..n]) <==> n == |Escape(f)|
  {
    var whole := Escape(f);
    var header := FirstTwo(f);
    var body := header + Stuff(Middle(f));
    assert Last(header) == f[1] && header[..1] == [f[0]];
    assert Front(header) == [f[0]];
    if n <= 2 {
      if n == 2 {
        assert Front(whole[..n]) == [f[0]];
      }
    } else if n <= |body| {
      NoEndInsidePayload(header, Middle(f), n);
      assert whole[..n] == body[..n];
    } else {
      SettledAfterPayload(header, Middle(f));
      TrailingEscapesOne(body, ESCAPE);
      if n == |whole| {
        assert Front(whole[..n]) == body + [ESCAPE];
      } else {
        assert Last(whole[..n]) == ESCAPE;
      }
    }
  }

  // Escaped frames are a prefix-free code: a receiver that stops at the first
  // frame end can read exactly one frame from the stream.
  lemma {:induction false} PrefixFree(f: seq<byte>, g: seq<byte>)
    requires IsFrame(f) && IsFrame(g)
    ensures Escape(f) <= Escape(g) <==> f == g
  {
    if Escape(f) <= Escape(g) {
      var n := |Escape(f)|;
      ExactFraming(f, n);
      ExactFraming(g, n);
      assert Escape(g)[..n] == Escape(f)[..n];
      assert Escape(f) == Escape(g)[..n] == Escape(g);
      EscapeRoundTrip(f);
      EscapeRoundTrip(g);
    }
  }
}
