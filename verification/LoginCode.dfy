/** The lab login code: unpadded URL-safe base64 (section 5 of RFC 4648) of a lab ID and its MAC. */
module LoginCode {
  import opened Options
  import opened Sequences

  type Byte = n: int | 0 <= n < 256
  type Sextet = n: int | 0 <= n < 64

  // ----- The alphabet -----

  function CharOf(v: Sextet): char {
    if v < 26 then ('A' as int + v) as char
    else if v < 52 then ('a' as int + v - 26) as char
    else if v < 62 then ('0' as int + v - 52) as char
    else if v == 62 then '-' else '_'
  }

  /** The decoder translates `-_` to `+/` first, so it reads both spellings. */
  function ValueOf(c: char): Option<Sextet> {
    if 'A' <= c <= 'Z' then Some(c as int - 'A' as int)
    else if 'a' <= c <= 'z' then Some(c as int - 'a' as int + 26)
    else if '0' <= c <= '9' then Some(c as int - '0' as int + 52)
    else if c == '-' || c == '+' then Some(62)
    else if c == '_' || c == '/' then Some(63)
    else None
  }

  lemma CharsReadBack(v: Sextet)
    ensures ValueOf(CharOf(v)) == Some(v) && CharOf(v) != '=' && CharOf(v) as int < 128
  {
  }

  /** The alphabet of section 5 of RFC 4648: capital letters, small letters, digits, `-` and `_`. */
  lemma AlphabetInOrder(v: Sextet)
    ensures CharOf(0) == 'A' && CharOf(25) == 'Z' && CharOf(26) == 'a' && CharOf(51) == 'z'
    ensures CharOf(52) == '0' && CharOf(61) == '9' && CharOf(62) == '-' && CharOf(63) == '_'
    ensures v < 61 && v !in {25, 51} ==> CharOf(v + 1) as int == CharOf(v) as int + 1
  {
  }

  /** The decoder reads the characters of the alphabet, and `+` and `/` for the last two, and no other. */
  lemma DataExactly(c: char)
    ensures ValueOf(c).Some? <==> c in "+/" || exists v: Sextet :: CharOf(v) == c
    ensures ValueOf(c).Some? && c !in "+/" ==> CharOf(ValueOf(c).value) == c
    ensures ValueOf('+') == Some(62) && ValueOf('/') == Some(63)
  {
    if v: Sextet :| CharOf(v) == c {
      CharsReadBack(v);
    }
    assert ValueOf(c).Some? && c !in "+/" ==> CharOf(ValueOf(c).value) == c;
  }

  // ----- Encoding -----

  /** Three bytes become four sextets; one or two bytes at the end become two or three. */
  function Sextets(bs: seq<Byte>): seq<Sextet> {
    if bs == [] then []
    else if |bs| == 1 then [bs[0] / 4, bs[0] % 4 * 16]
    else if |bs| == 2 then [bs[0] / 4, bs[0] % 4 * 16 + bs[1] / 16, bs[1] % 16 * 4]
    else [bs[0] / 4, bs[0] % 4 * 16 + bs[1] / 16, bs[1] % 16 * 4 + bs[2] / 64, bs[2] % 64] + Sextets(bs[3..])
  }

  function Chars(vs: seq<Sextet>): string {
    seq(|vs|, i requires 0 <= i < |vs| => CharOf(vs[i]))
  }

  function Pads(n: nat): string { seq(n, _ => '=') }

  /** `base64.urlsafe_b64encode`, with its padding. */
  function UrlsafeB64Encode(bs: seq<Byte>): string {
    Chars(Sextets(bs)) + Pads(if |bs| % 3 == 0 then 0 else 3 - |bs| % 3)
  }

  function StripPads(s: string): string {
    if s != "" && s[|s| - 1] == '=' then StripPads(s[..|s| - 1]) else s
  }

  // ----- Decoding -----

  /** `left` holds the bits of the last character that have not become a byte yet. */
  datatype Quad = Quad(pos: nat, left: nat, bytes: seq<Byte>) {
    ghost predicate Valid() { pos < 4 && left < 64 && (pos == 2 ==> left < 16) && (pos == 3 ==> left < 4) }
  }

  const EMPTY := Quad(0, 0, [])

  function High(a: Sextet, b: Sextet): Byte { var x: int := a; x * 4 + b / 16 }

  function Middle(b: Sextet, c: Sextet): Byte { var x: int := b % 16; x * 16 + c / 4 }

  function Low(c: Sextet, d: Sextet): Byte { var x: int := c % 4; x * 64 + d }

  function Feed(q: Quad, v: Sextet): (r: Quad)
    requires q.Valid()
    ensures r.Valid() && r.pos == (q.pos + 1) % 4
  {
    if q.pos == 0 then Quad(1, v, q.bytes)
    else if q.pos == 1 then Quad(2, v % 16, q.bytes + [q.left * 4 + v / 16])
    else if q.pos == 2 then Quad(3, v % 4, q.bytes + [q.left * 16 + v / 4])
    else Quad(0, 0, q.bytes + [q.left * 64 + v])
  }

  /** The strict decoder over the rest of the input; None stands for `binascii.Error`. */
  function Decode(s: string, q: Quad, padded: bool, pads: nat): Option<seq<Byte>>
    requires q.Valid()
    decreases |s|
  {
    if s == "" then (if q.pos != 0 then None else Some(q.bytes))
    else if s[0] == '=' then
      if q.pos >= 2 && q.pos + pads + 1 >= 4 then (if |s| > 1 then None else Some(q.bytes))
      else Decode(s[1..], q, true, if q.pos >= 2 then pads + 1 else pads)
    else match ValueOf(s[0])
         case None => None
         case Some(v) => if padded then None else Decode(s[1..], Feed(q, v), false, 0)
  }

  /** `base64.b64decode(..., altchars=b"-_", validate=True)`: leading padding is refused first. */
  function B64Decode(s: string): Option<seq<Byte>> {
    if s != "" && s[0] == '=' then None else Decode(s, EMPTY, false, 0)
  }

  // ----- The login code -----

  /** `lab` is the 16 bytes of the lab's UUID; `mac` stands for the keyed MAC over them. */
  ghost predicate IsMac(mac: seq<Byte> -> seq<Byte>) { forall lab: seq<Byte> :: |mac(lab)| == 16 }

  function LabLoginCode(lab: seq<Byte>, mac: seq<Byte> -> seq<Byte>): string {
    StripPads(UrlsafeB64Encode(lab + mac(lab)))
  }

  predicate Ascii(s: string) { forall c <- s :: c as int < 128 }

  /** `-len(code) % 4` */
  function MissingPads(n: nat): nat { (4 - n % 4) % 4 }

  function LabFromLoginCode(code: string, mac: seq<Byte> -> seq<Byte>): Option<seq<Byte>> {
    if !Ascii(code) then None
    else match B64Decode(code + Pads(MissingPads(|code|)))
         case None => None
         case Some(raw) =>
           if |raw| != 32 then None
           else if raw[16..] == mac(raw[..16]) then Some(raw[..16]) else None
  }

  // ----- Decoding undoes encoding -----

  function FeedAll(q: Quad, vs: seq<Sextet>): (r: Quad)
    requires q.Valid()
    ensures r.Valid() && r.pos == (q.pos + |vs|) % 4
    decreases |vs|
  {
    if vs == [] then q else FeedAll(Feed(q, vs[0]), vs[1..])
  }

  /** Four sextets in a row complete three bytes. */
  lemma FeedQuad(bytes: seq<Byte>, a: Sextet, b: Sextet, c: Sextet, d: Sextet)
    ensures Feed(Feed(Quad(0, 0, bytes), a), b) == Quad(2, b % 16, bytes + [High(a, b)])
    ensures Feed(Quad(2, b % 16, bytes), c) == Quad(3, c % 4, bytes + [Middle(b, c)])
    ensures Feed(Quad(3, c % 4, bytes), d) == Quad(0, 0, bytes + [Low(c, d)])
  {
  }

  lemma FeedTwo(q: Quad, vs: seq<Sextet>)
    requires q.Valid() && |vs| >= 2
    ensures FeedAll(q, vs) == FeedAll(Feed(Feed(q, vs[0]), vs[1]), vs[2..])
  {
    assert vs[1..][0] == vs[1] && vs[1..][1..] == vs[2..];
  }

  /** The three bytes of the first four sextets. */
  function Triple(vs: seq<Sextet>): (bs: seq<Byte>)
    requires |vs| >= 4
    ensures |bs| == 3
  {
    [High(vs[0], vs[1]), Middle(vs[1], vs[2]), Low(vs[2], vs[3])]
  }

  lemma FeedFour(bytes: seq<Byte>, vs: seq<Sextet>)
    requires |vs| >= 4
    ensures FeedAll(Quad(0, 0, bytes), vs) == FeedAll(Quad(0, 0, bytes + Triple(vs)), vs[4..])
  {
    var a, b, c, d := vs[0], vs[1], vs[2], vs[3];
    var one := bytes + [High(a, b)];
    var two := one + [Middle(b, c)];
    FeedTwo(Quad(0, 0, bytes), vs);
    FeedQuad(bytes, a, b, c, d);
    FeedQuad(one, a, b, c, d);
    FeedQuad(two, a, b, c, d);
    FeedTwo(Quad(2, b % 16, one), vs[2..]);
    assert vs[2..][0] == c && vs[2..][1] == d && vs[2..][2..] == vs[4..];
    assert two + [Low(c, d)] == bytes + Triple(vs);
  }

  /** The bytes that a list of sextets holds, without the spare bits at the end. */
  function Bytes(vs: seq<Sextet>): (bs: seq<Byte>)
    ensures |bs| == |vs| * 3 / 4
  {
    if |vs| < 2 then []
    else if |vs| == 2 then [High(vs[0], vs[1])]
    else if |vs| == 3 then [High(vs[0], vs[1]), Middle(vs[1], vs[2])]
    else Triple(vs) + Bytes(vs[4..])
  }

  lemma FeedRest(bytes: seq<Byte>, vs: seq<Sextet>)
    requires |vs| < 4
    ensures FeedAll(Quad(0, 0, bytes), vs).bytes == bytes + Bytes(vs)
  {
    if |vs| >= 2 {
      FeedTwo(Quad(0, 0, bytes), vs);
      FeedQuad(bytes, vs[0], vs[1], 0, 0);
      if |vs| == 3 {
        FeedQuad(bytes + [High(vs[0], vs[1])], vs[0], vs[1], vs[2], 0);
        assert vs[2..] == [vs[2]];
        assert FeedAll(Quad(2, vs[1] % 16, bytes + [High(vs[0], vs[1])]), [vs[2]]).bytes
            == bytes + [High(vs[0], vs[1])] + [Middle(vs[1], vs[2])];
      }
    }
  }

  lemma {:induction false} FeedAllBytes(bytes: seq<Byte>, vs: seq<Sextet>)
    ensures FeedAll(Quad(0, 0, bytes), vs).bytes == bytes + Bytes(vs)
    decreases |vs|
  {
    if |vs| >= 4 {
      FeedFour(bytes, vs);
      FeedAllBytes(bytes + Triple(vs), vs[4..]);
      Assoc(bytes, Triple(vs), Bytes(vs[4..]));
    } else {
      FeedRest(bytes, vs);
    }
  }

  lemma BackToBytes(a: Byte, b: Byte, c: Byte)
    ensures High(a / 4, a % 4 * 16 + b / 16) == a
    ensures Middle(a % 4 * 16 + b / 16, b % 16 * 4 + c / 64) == b
    ensures Low(b % 16 * 4 + c / 64, c % 64) == c
  {
  }

  lemma FirstFourSextets(bs: seq<Byte>)
    requires |bs| >= 3
    ensures var vs := Sextets(bs);
            && |vs| == 4 + |Sextets(bs[3..])| && vs[4..] == Sextets(bs[3..])
            && vs[0] == bs[0] / 4 && vs[1] == bs[0] % 4 * 16 + bs[1] / 16
            && vs[2] == bs[1] % 16 * 4 + bs[2] / 64 && vs[3] == bs[2] % 64
  {
  }

  lemma FirstThree(bs: seq<Byte>)
    requires |bs| >= 3
    ensures |Sextets(bs)| == 4 + |Sextets(bs[3..])| && Sextets(bs)[4..] == Sextets(bs[3..])
    ensures Triple(Sextets(bs)) == bs[..3]
  {
    FirstFourSextets(bs);
    BackToBytes(bs[0], bs[1], bs[2]);
    assert bs[..3] == [bs[0], bs[1], bs[2]];
  }

  /** The number that the first `n` sextets write in base 64. */
  function Base64Number(vs: seq<Sextet>, n: nat): nat
    requires n <= |vs|
  {
    if n == 0 then 0
    else var v: int := vs[n - 1]; Base64Number(vs, n - 1) * 64 + v
  }

  /** The number that the first `n` bytes write in base 256. */
  function Base256Number(bs: seq<Byte>, n: nat): nat
    requires n <= |bs|
  {
    if n == 0 then 0
    else var b: int := bs[n - 1]; Base256Number(bs, n - 1) * 256 + b
  }

  lemma SmallNumbers(vs: seq<Sextet>, bs: seq<Byte>)
    ensures |vs| >= 2 ==> Base64Number(vs, 2) == 64 * vs[0] as int + vs[1] as int
    ensures |vs| >= 3 ==> Base64Number(vs, 3) == 4096 * vs[0] as int + 64 * vs[1] as int + vs[2] as int
    ensures |vs| >= 4 ==>
              Base64Number(vs, 4) == 262144 * vs[0] as int + 4096 * vs[1] as int + 64 * vs[2] as int + vs[3] as int
    ensures |bs| >= 1 ==> Base256Number(bs, 1) == bs[0] as int
    ensures |bs| >= 2 ==> Base256Number(bs, 2) == 256 * bs[0] as int + bs[1] as int
    ensures |bs| >= 3 ==> Base256Number(bs, 3) == 65536 * bs[0] as int + 256 * bs[1] as int + bs[2] as int
  {
    if |vs| >= 2 {
      assert Base64Number(vs, 1) == Base64Number(vs, 0) * 64 + vs[0] as int;
    }
    if |bs| >= 1 {
      assert Base256Number(bs, 1) == Base256Number(bs, 0) * 256 + bs[0] as int;
    }
  }

  lemma ThreeBytesInBits(a: Byte, b: Byte, c: Byte)
    ensures 262144 * (a / 4) as int + 4096 * (a % 4 * 16 + b / 16) as int + 64 * (b % 16 * 4 + c / 64) as int
            + (c % 64) as int == 65536 * a as int + 256 * b as int + c as int
    ensures 4096 * (a / 4) as int + 64 * (a % 4 * 16 + b / 16) as int + (b % 16 * 4) as int == (256 * a as int + b as int) * 4
    ensures 64 * (a / 4) as int + (a % 4 * 16) as int == a as int * 16
  {
  }

  /** Four sextets hold the 24 bits of three bytes in order; one or two bytes at the end are filled up with zeros. */
  lemma SextetsAreBits(bs: seq<Byte>)
    ensures var vs := Sextets(bs);
            && (|bs| == 1 ==> |vs| == 2 && Base64Number(vs, 2) == Base256Number(bs, 1) * 16)
            && (|bs| == 2 ==> |vs| == 3 && Base64Number(vs, 3) == Base256Number(bs, 2) * 4)
            && (|bs| >= 3 ==>
                  |vs| >= 4 && vs[4..] == Sextets(bs[3..]) && Base64Number(vs, 4) == Base256Number(bs, 3))
  {
    SmallNumbers(Sextets(bs), bs);
    if |bs| == 1 {
      ThreeBytesInBits(bs[0], 0, 0);
    } else if |bs| == 2 {
      ThreeBytesInBits(bs[0], bs[1], 0);
    } else if |bs| >= 3 {
      FirstFourSextets(bs);
      ThreeBytesInBits(bs[0], bs[1], bs[2]);
    }
  }

  /** Encoding loses nothing. */
  lemma {:induction false} BytesOfSextets(bs: seq<Byte>)
    ensures Bytes(Sextets(bs)) == bs
    ensures |Sextets(bs)| == (|bs| * 4 + 2) / 3
    decreases |bs|
  {
    if |bs| >= 3 {
      FirstThree(bs);
      BytesOfSextets(bs[3..]);
      assert bs[..3] + bs[3..] == bs;
    }
  }

  lemma {:induction false} StripAllPads(s: string, n: nat)
    requires s == "" || s[|s| - 1] != '='
    ensures StripPads(s + Pads(n)) == s
  {
    if n > 0 {
      StripAllPads(s, n - 1);
      assert (s + Pads(n))[..|s| + n - 1] == s + Pads(n - 1);
    } else {
      assert s + Pads(0) == s;
    }
  }

  lemma EncodedChars(bs: seq<Byte>)
    ensures StripPads(UrlsafeB64Encode(bs)) == Chars(Sextets(bs))
  {
    var s := Chars(Sextets(bs));
    if s != "" {
      CharsReadBack(Sextets(bs)[|s| - 1]);
    }
    StripAllPads(s, if |bs| % 3 == 0 then 0 else 3 - |bs| % 3);
  }

  /** The values of a string of data characters. */
  predicate Data(s: string) { forall i :: 0 <= i < |s| ==> ValueOf(s[i]).Some? && s[i] != '=' }

  function Values(s: string): seq<Sextet>
    requires Data(s)
  {
    seq(|s|, i requires 0 <= i < |s| => ValueOf(s[i]).value)
  }

  lemma {:induction false} DecodeData(s: string, tail: string, q: Quad)
    requires Data(s) && q.Valid()
    ensures Decode(s + tail, q, false, 0) == Decode(tail, FeedAll(q, Values(s)), false, 0)
    decreases |s|
  {
    if s == "" {
      assert s + tail == tail;
    } else {
      DecodeData(s[1..], tail, Feed(q, ValueOf(s[0]).value));
      assert (s + tail)[1..] == s[1..] + tail;
      assert Values(s)[1..] == Values(s[1..]);
    }
  }

  // ----- What the decoder accepts -----

  /** Padding after data is read as padding only: its number is fixed by the position in the quad. */
  lemma {:induction false} DecodePads(s: string, q: Quad, padded: bool, pads: nat)
    requires q.Valid() && Decode(s, q, padded, pads).Some? && (padded || (s != "" && s[0] == '=') || s == "")
    ensures Decode(s, q, padded, pads).value == q.bytes && s == Pads(|s|)
    ensures q.pos == 3 && pads == 0 ==> |s| == 1
    decreases |s|
  {
    if s != "" {
      assert s[0] == '=';
      if q.pos >= 2 && q.pos + pads + 1 >= 4 {
      } else {
        DecodePads(s[1..], q, true, if q.pos >= 2 then pads + 1 else pads);
        assert s == [s[0]] + s[1..];
      }
    }
  }

  /** Whatever is decoded is data followed by padding. */
  lemma {:induction false} DecodedShape(s: string, q: Quad) returns (n: nat)
    requires q.Valid() && Decode(s, q, false, 0).Some?
    ensures n <= |s| && Data(s[..n]) && s[n..] == Pads(|s| - n)
    ensures Decode(s, q, false, 0).value == FeedAll(q, Values(s[..n])).bytes
    ensures (q.pos + n) % 4 == 3 ==> |s| == n + 1
    decreases |s|
  {
    if s == "" || s[0] == '=' {
      n := 0;
      DecodePads(s, q, false, 0);
      assert s[0..] == s;
      assert Values(s[..0]) == [];
    } else {
      var q1 := Feed(q, ValueOf(s[0]).value);
      var m := DecodedShape(s[1..], q1);
      n := m + 1;
      OneMoreChar(s, m, q);
    }
  }

  lemma OneMoreChar(s: string, m: nat, q: Quad)
    requires s != "" && m < |s| && ValueOf(s[0]).Some? && s[0] != '=' && Data(s[1..][..m]) && q.Valid()
    ensures Data(s[..m + 1]) && s[m + 1..] == s[1..][m..]
    ensures FeedAll(q, Values(s[..m + 1])) == FeedAll(Feed(q, ValueOf(s[0]).value), Values(s[1..][..m]))
  {
    var n := m + 1;
    assert s[..n] == [s[0]] + s[1..][..m];
    assert Values(s[..n])[1..] == Values(s[1..][..m]);
    assert Values(s[..n])[0] == ValueOf(s[0]).value;
  }

  /** Two lists of sextets hold the same bytes: they may differ in the two spare bits of the last one only. */
  ghost predicate SameButSpareBits(a: seq<Sextet>, b: seq<Sextet>) {
    && |a| == |b| && |a| % 4 == 3
    && (forall i :: 0 <= i < |a| - 1 ==> a[i] == b[i])
    && a[|a| - 1] / 4 == b[|b| - 1] / 4
  }

  lemma HighMiddleLow(a: Sextet, b: Sextet, c: Sextet, d: Sextet, a1: Sextet, b1: Sextet, c1: Sextet, d1: Sextet)
    ensures High(a, b) == High(a1, b1) <==> a == a1 && b / 16 == b1 / 16
    ensures Middle(b, c) == Middle(b1, c1) <==> b % 16 == b1 % 16 && c / 4 == c1 / 4
    ensures Low(c, d) == Low(c1, d1) <==> c % 4 == c1 % 4 && d == d1
  {
  }

  lemma QuotientAndRest(a: Sextet, b: Sextet, n: nat)
    requires n in [4, 16]
    ensures a == b <==> a / n == b / n && a % n == b % n
  {
  }

  lemma FirstFour(a: seq<Sextet>, b: seq<Sextet>)
    requires |a| >= 4 && |b| >= 4
    ensures a[..4] == b[..4] <==> a[0] == b[0] && a[1] == b[1] && a[2] == b[2] && a[3] == b[3]
  {
    assert forall i :: 0 <= i < 4 ==> a[..4][i] == a[i] && b[..4][i] == b[i];
  }

  lemma TripleIsInjective(a: seq<Sextet>, b: seq<Sextet>)
    requires |a| >= 4 && |b| >= 4
    ensures Triple(a) == Triple(b) <==> a[..4] == b[..4]
  {
    HighMiddleLow(a[0], a[1], a[2], a[3], b[0], b[1], b[2], b[3]);
    QuotientAndRest(a[1], b[1], 16);
    QuotientAndRest(a[2], b[2], 4);
    FirstFour(a, b);
    var x, y := Triple(a), Triple(b);
    assert x == y <==> x[0] == y[0] && x[1] == y[1] && x[2] == y[2];
  }

  lemma PartsEqual<T>(a: seq<T>, b: seq<T>, c: seq<T>, d: seq<T>)
    requires |a| == |c|
    ensures a + b == c + d <==> a == c && b == d
  {
    assert (a + b)[..|a|] == a && (a + b)[|a|..] == b;
    assert (c + d)[..|c|] == c && (c + d)[|c|..] == d;
  }

  lemma SameBytesOfThree(a: seq<Sextet>, b: seq<Sextet>)
    requires |a| == |b| == 3
    ensures Bytes(a) == Bytes(b) <==> SameButSpareBits(a, b)
  {
    HighMiddleLow(a[0], a[1], a[2], 0, b[0], b[1], b[2], 0);
    QuotientAndRest(a[1], b[1], 16);
    assert Bytes(a) == Bytes(b) <==> Bytes(a)[0] == Bytes(b)[0] && Bytes(a)[1] == Bytes(b)[1];
  }

  lemma {:induction false} SameBytes(a: seq<Sextet>, b: seq<Sextet>)
    requires |a| == |b| && |a| % 4 == 3
    ensures Bytes(a) == Bytes(b) <==> SameButSpareBits(a, b)
    decreases |a|
  {
    if |a| == 3 {
      SameBytesOfThree(a, b);
    } else {
      SameBytes(a[4..], b[4..]);
      TripleIsInjective(a, b);
      PartsEqual(Triple(a), Bytes(a[4..]), Triple(b), Bytes(b[4..]));
      SpareBitsTail(a, b);
    }
  }

  lemma SpareBitsTail(a: seq<Sextet>, b: seq<Sextet>)
    requires |a| == |b| && |a| % 4 == 3 && |a| > 3
    ensures SameButSpareBits(a, b) <==> a[..4] == b[..4] && SameButSpareBits(a[4..], b[4..])
  {
    var a1, b1 := a[4..], b[4..];
    assert forall i :: 0 <= i < |a1| ==> a1[i] == a[i + 4] && b1[i] == b[i + 4];
    if a[..4] == b[..4] && SameButSpareBits(a1, b1) {
      forall i | 0 <= i < |a| - 1
        ensures a[i] == b[i]
      {
        if i < 4 {
          assert a[i] == a[..4][i] && b[i] == b[..4][i];
        } else {
          assert a[i] == a1[i - 4] && b[i] == b1[i - 4];
        }
      }
    }
  }

  /** Reading a code of 43 data characters, with or without its pad character. */
  lemma DecodeCode(data: string)
    requires Data(data) && |data| == 43
    ensures B64Decode(data + "=") == Some(Bytes(Values(data))) && |Bytes(Values(data))| == 32
  {
    DecodeData(data, "=", EMPTY);
    FeedAllBytes([], Values(data));
    assert [] + Bytes(Values(data)) == Bytes(Values(data));
  }

  /** Every lab's code has 43 characters without padding and is read back as that lab. */
  lemma CodeNamesItsLab(lab: seq<Byte>, mac: seq<Byte> -> seq<Byte>)
    requires |lab| == 16 && IsMac(mac)
    ensures |LabLoginCode(lab, mac)| == 43 && '=' !in LabLoginCode(lab, mac)
    ensures LabFromLoginCode(LabLoginCode(lab, mac), mac) == Some(lab)
  {
    var raw := lab + mac(lab);
    var code := LabLoginCode(lab, mac);
    CodeChars(lab, mac);
    BytesOfSextets(raw);
    CodeIsRead(code, lab, mac);
  }

  lemma TwoParts(a: seq<Byte>, b: seq<Byte>)
    ensures (a + b)[..|a|] == a && (a + b)[|a|..] == b
  {
  }

  /** Reading 43 data characters that hold a lab's bytes and its MAC. */
  lemma CodeIsRead(code: string, lab: seq<Byte>, mac: seq<Byte> -> seq<Byte>)
    requires |lab| == 16 && |code| == 43 && Data(code) && Ascii(code) && Bytes(Values(code)) == lab + mac(lab)
    ensures LabFromLoginCode(code, mac) == Some(lab)
  {
    var raw := lab + mac(lab);
    DecodeCode(code);
    assert Pads(1) == "=";
    TwoParts(lab, mac(lab));
  }

  lemma CodeChars(lab: seq<Byte>, mac: seq<Byte> -> seq<Byte>)
    requires |lab| == 16 && IsMac(mac)
    ensures var code := LabLoginCode(lab, mac);
            && |code| == 43 && Data(code) && Ascii(code) && '=' !in code
            && Values(code) == Sextets(lab + mac(lab))
  {
    var raw := lab + mac(lab);
    EncodedChars(raw);
    BytesOfSextets(raw);
    var code := LabLoginCode(lab, mac);
    forall i | 0 <= i < |code|
      ensures ValueOf(code[i]) == Some(Sextets(raw)[i]) && code[i] != '=' && code[i] as int < 128
    {
      CharsReadBack(Sextets(raw)[i]);
    }
    assert Values(code) == Sextets(raw);
  }

  /** The code without the one pad character that it may carry. */
  function Unpadded(code: string): string {
    if |code| == 44 && code[43] == '=' then code[..43] else code
  }

  /** An accepted code is 43 data characters, or those and one pad character. */
  lemma AcceptedShape(code: string, mac: seq<Byte> -> seq<Byte>)
    requires LabFromLoginCode(code, mac).Some?
    ensures |Unpadded(code)| == 43 && Data(Unpadded(code))
    ensures B64Decode(code + Pads(MissingPads(|code|))) == Some(Bytes(Values(Unpadded(code))))
  {
    var s := code + Pads(MissingPads(|code|));
    var n := DecodedShape(s, EMPTY);
    FeedAllBytes([], Values(s[..n]));
    assert [] + Bytes(Values(s[..n])) == Bytes(Values(s[..n]));
    assert n * 3 / 4 == 32;
    assert n == 43;
    assert |s| == 44;
    assert forall i :: 0 <= i < n ==> s[i] == s[..n][i] && s[i] != '=';
    assert forall i :: |code| <= i < |s| ==> s[i] == '=';
    assert |code| < |s| ==> s[|code|] == '=';
    assert |code| >= 43;
    assert s[..43] == Unpadded(code) by {
      if |code| == 44 {
        assert s[43..][0] == '=' && s[43] == code[43];
      }
    }
  }

  lemma AcceptedOnly(code: string, lab: seq<Byte>, mac: seq<Byte> -> seq<Byte>)
    requires |lab| == 16 && IsMac(mac) && LabFromLoginCode(code, mac) == Some(lab)
    ensures Data(Unpadded(code)) && SameButSpareBits(Values(Unpadded(code)), Sextets(lab + mac(lab)))
  {
    var raw := lab + mac(lab);
    AcceptedShape(code, mac);
    BytesOfSextets(raw);
    var got := Bytes(Values(Unpadded(code)));
    assert got == got[..16] + got[16..] == raw;
    SameBytes(Values(Unpadded(code)), Sextets(raw));
  }

  lemma AcceptedIf(code: string, lab: seq<Byte>, mac: seq<Byte> -> seq<Byte>)
    requires |lab| == 16 && IsMac(mac)
    requires Data(Unpadded(code)) && SameButSpareBits(Values(Unpadded(code)), Sextets(lab + mac(lab)))
    ensures LabFromLoginCode(code, mac) == Some(lab)
  {
    var data, raw := Unpadded(code), lab + mac(lab);
    BytesOfSextets(raw);
    SameBytes(Values(data), Sextets(raw));
    DecodeCode(data);
    AsciiData(code);
    CompletedCode(code);
    TwoParts(lab, mac(lab));
  }

  lemma CompletedCode(code: string)
    requires |Unpadded(code)| == 43
    ensures code + Pads(MissingPads(|code|)) == Unpadded(code) + "="
  {
    if |code| == 44 {
      assert Pads(0) == "" && code + "" == code == code[..43] + "=";
    } else {
      assert Pads(1) == "=";
    }
  }

  /**
   Exactly which inputs name a lab: the lab's own code up to the `-_`/`+/` spelling, an optional pad
   character and the two spare bits of the last character.  Everything else gives None or another lab.
  */
  lemma AcceptedExactly(code: string, lab: seq<Byte>, mac: seq<Byte> -> seq<Byte>)
    requires |lab| == 16 && IsMac(mac)
    ensures LabFromLoginCode(code, mac) == Some(lab) <==>
            Data(Unpadded(code)) && SameButSpareBits(Values(Unpadded(code)), Sextets(lab + mac(lab)))
  {
    if LabFromLoginCode(code, mac) == Some(lab) {
      AcceptedOnly(code, lab, mac);
    }
    if Data(Unpadded(code)) && SameButSpareBits(Values(Unpadded(code)), Sextets(lab + mac(lab))) {
      AcceptedIf(code, lab, mac);
    }
  }

  lemma AsciiData(code: string)
    requires Data(Unpadded(code))
    ensures Ascii(code)
  {
    var data := Unpadded(code);
    forall i | 0 <= i < |code|
      ensures code[i] as int < 128
    {
      assert i < |data| ==> ValueOf(data[i]).Some? && code[i] == data[i];
    }
  }

  /** So the decoder is not injective: four last characters are read alike. */
  lemma SpareBitsAreIgnored(code: string, mac: seq<Byte> -> seq<Byte>, v: Sextet)
    requires LabFromLoginCode(code, mac).Some? && |code| == 43 && IsMac(mac)
    requires ValueOf(code[42]).Some? && v / 4 == ValueOf(code[42]).value / 4
    ensures LabFromLoginCode(code[..42] + [CharOf(v)], mac) == LabFromLoginCode(code, mac)
  {
    var lab := LabFromLoginCode(code, mac).value;
    var other := code[..42] + [CharOf(v)];
    AcceptedShape(code, mac);
    AcceptedExactly(code, lab, mac);
    CharsReadBack(v);
    assert Data(other);
    assert forall i :: 0 <= i < 42 ==> Values(other)[i] == Values(code)[i];
    AcceptedExactly(other, lab, mac);
  }
}
