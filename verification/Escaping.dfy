// Byte stuffing and footer recognition: parser.py, add_duplicated_bytes,
// fix_duplicated_bytes and is_frame_end.

module Escaping {
  import opened Bytes

  // ------------------------------------------------------------- stuffing

  // What one payload byte becomes on the wire.
  function Token(b: byte): seq<byte> {
    if b == ESCAPE then [ESCAPE, ESCAPE]
    else if b == STUFFED then [STUFFED, STUFFING]
    else [b]
  }

  function Stuff(s: seq<byte>): seq<byte> {
    if s == [] then [] else Token(s[0]) + Stuff(s[1..])
  }

  // Python's data[:2] and data[-2:], which shorten or overlap on short inputs.
  function FirstTwo(f: seq<byte>): seq<byte> {
    if |f| < 2 then f else f[..2]
  }

  function LastTwo(f: seq<byte>): seq<byte> {
    if |f| < 2 then f else f[|f| - 2..]
  }

  function Middle(f: seq<byte>): seq<byte> {
    if |f| < 4 then [] else f[2..|f| - 2]
  }

  function Escape(f: seq<byte>): seq<byte> {
    FirstTwo(f) + Stuff(Middle(f)) + LastTwo(f)
  }

  lemma {:induction false} StuffAppend(a: seq<byte>, b: seq<byte>)
    ensures Stuff(a + b) == Stuff(a) + Stuff(b)
  {
    if a == [] {
      assert a + b == b;
    } else {
      assert (a + b)[0] == a[0] && (a + b)[1..] == a[1..] + b;
      StuffAppend(a[1..], b);
      Associate(Token(a[0]), Stuff(a[1..]), Stuff(b));
    }
  }

  lemma Associate(a: seq<byte>, b: seq<byte>, c: seq<byte>)
    ensures (a + b) + c == a + (b + c)
  {
  }

  // Stuffing at most doubles the payload, so an escaped frame of at most 514
  // bytes fits the 1024-byte receive buffer.
  lemma {:induction false} EscapeLength(f: seq<byte>)
    requires |f| >= 4
    ensures |f| <= |Escape(f)| <= 2 * |f| - 4
  {
    StuffLength(Middle(f));
  }

  lemma {:induction false} StuffLength(s: seq<byte>)
    ensures |s| <= |Stuff(s)| <= 2 * |s|
  {
    if s != [] {
      StuffLength(s[1..]);
    }
  }

  lemma {:induction false} StuffOne(s: seq<byte>, b: byte)
    ensures Stuff(s + [b]) == Stuff(s) + Token(b)
  {
    StuffAppend(s, [b]);
    assert Token(b) + Stuff([]) == Token(b);
  }

  method AddDuplicatedBytes(data: seq<byte>) returns (out: seq<byte>)
    ensures out == Escape(data)
  {
    out := FirstTwo(data);
    ghost var middle := Middle(data);
    var i := 2;
    while i < |data| - 2
      invariant 0 <= i - 2 <= |middle|
      invariant out == FirstTwo(data) + Stuff(middle[..i - 2])
    {
      assert middle[..i - 1] == middle[..i - 2] + [data[i]];
      StuffOne(middle[..i - 2], data[i]);
      out := out + [data[i]];
      if data[i] == 0x10 {
        out := out + [0x10];
      } else if data[i] == 0x2B {
        out := out + [0x18];
      }
      i := i + 1;
    }
    assert middle[..i - 2] == middle;
    out := out + LastTwo(data);
  }

  // ----------------------------------------------------------- unstuffing

  // Python's s.replace(bytes([a, b]), bytes([a])): left to right, and never
  // looking again at what it already emitted.
  function Replace(s: seq<byte>, a: byte, b: byte): seq<byte> {
    if s == [] then []
    else if |s| >= 2 && s[0] == a && s[1] == b then [a] + Replace(s[2..], a, b)
    else [s[0]] + Replace(s[1..], a, b)
  }

  function Unescape(data: seq<byte>): seq<byte> {
    if |data| < 2 then data
    else
      Replace(Replace(data[..|data| - 2], ESCAPE, ESCAPE), STUFFED, STUFFING) + FOOTER
  }

  predicate IsEscapePair(a: byte, b: byte) {
    (a == ESCAPE && b == ESCAPE) || (a == STUFFED && b == STUFFING)
  }

  // The reference decoder: one pass over the tokens.
  function Decode(s: seq<byte>): seq<byte> {
    if s == [] then []
    else if |s| >= 2 && IsEscapePair(s[0], s[1]) then [s[0]] + Decode(s[2..])
    else [s[0]] + Decode(s[1..])
  }

  lemma {:induction false} ReplaceKeepsHead(s: seq<byte>, a: byte, b: byte)
    requires s != []
    ensures Replace(s, a, b) != [] && Replace(s, a, b)[0] == s[0]
  {
  }

  // The two replace passes do not disturb one another: on every input, in
  // either order, they compute the one-pass decoding.
  lemma {:induction false} PassesAreOneDecoder(s: seq<byte>)
    ensures Replace(Replace(s, ESCAPE, ESCAPE), STUFFED, STUFFING) == Decode(s)
    ensures Replace(Replace(s, STUFFED, STUFFING), ESCAPE, ESCAPE) == Decode(s)
    decreases |s|
  {
    if |s| >= 2 && IsEscapePair(s[0], s[1]) {
      PassesAreOneDecoder(s[2..]);
      PassSkips(s, ESCAPE, ESCAPE, STUFFED, STUFFING);
      PassSkips(s, STUFFED, STUFFING, ESCAPE, ESCAPE);
    } else if s != [] {
      PassesAreOneDecoder(s[1..]);
      PassSkips(s, ESCAPE, ESCAPE, STUFFED, STUFFING);
      PassSkips(s, STUFFED, STUFFING, ESCAPE, ESCAPE);
    }
  }

  // How the second pass (c, d) meets the first token of the output of the
  // first pass (a, b).
  lemma {:induction false} PassSkips(s: seq<byte>, a: byte, b: byte, c: byte, d: byte)
    requires s != [] && a != c && a != d && b != c
    ensures var t := Replace(Replace(s, a, b), c, d);
            if |s| >= 2 && s[0] == a && s[1] == b then
              t == [a] + Replace(Replace(s[2..], a, b), c, d)
            else if |s| >= 2 && s[0] == c && s[1] == d then
              t == [c] + Replace(Replace(s[2..], a, b), c, d)
            else
              t == [s[0]] + Replace(Replace(s[1..], a, b), c, d)
  {
    var r := Replace(s, a, b);
    if |s| >= 2 && s[0] == a && s[1] == b {
      assert r[1..] == Replace(s[2..], a, b);
    } else {
      assert r[1..] == Replace(s[1..], a, b);
      if |s| >= 2 {
        ReplaceKeepsHead(s[1..], a, b);
        if s[0] == c && s[1] == d {
          assert r[1..] == [d] + Replace(s[2..], a, b);
          assert r[2..] == Replace(s[2..], a, b);
        }
      }
    }
  }
}
