/** Deterministic CBOR (RFC 8949, sections 3 and 4.2.1) for the data the protocol signs:
    integers, byte and text strings, arrays, maps and null.

    The encoder writes shortest heads and definite lengths. The decoder is the looser one a reader
    runs: it also takes heads that are longer than they need to be. */
module Cbor {
  import opened Wrappers

  type byte = x: int | 0 <= x < 256

  const TWO64: int := 0x1_0000_0000_0000_0000

  type uint64 = x: int | 0 <= x < 0x1_0000_0000_0000_0000
  type int64 = x: int | -0x8000_0000_0000_0000 <= x < 0x8000_0000_0000_0000

  /** One data item. NInt(n) is the integer -1 - n. A map lists its keys and values alternately. */
  datatype Item =
    | UInt(n: nat)
    | NInt(n: nat)
    | Bytes(b: seq<byte>)
    | Text(b: seq<byte>)
    | Array(items: seq<Item>)
    | Map(kv: seq<Item>)
    | Null

  /** The item fits CBOR's 64-bit heads, as every Go value does. */
  predicate Fits(i: Item)
    decreases i, 1
  {
    match i
    case UInt(n) => n < TWO64
    case NInt(n) => n < TWO64
    case Bytes(b) => |b| < TWO64
    case Text(b) => |b| < TWO64
    case Array(items) => |items| < TWO64 && AllFit(items)
    case Map(kv) => |kv| % 2 == 0 && |kv| / 2 < TWO64 && AllFit(kv)
    case Null => true
  }

  predicate AllFit(items: seq<Item>)
    decreases items, 0
  {
    items == [] || (Fits(items[0]) && AllFit(items[1..]))
  }

  // ---- Big-endian integers ----

  function Pow256(k: nat): (p: nat)
    ensures p >= 1
  {
    if k == 0 then 1 else 256 * Pow256(k - 1)
  }

  function BigEndian(n: nat, k: nat): (s: seq<byte>)
    ensures |s| == k
  {
    if k == 0 then [] else BigEndian(n / 256, k - 1) + [n % 256]
  }

  function FromBigEndian(s: seq<byte>): nat {
    if s == [] then 0 else FromBigEndian(s[..|s| - 1]) * 256 + s[|s| - 1]
  }

  lemma {:induction false} FromBigEndianInverts(n: nat, k: nat)
    requires n < Pow256(k)
    ensures FromBigEndian(BigEndian(n, k)) == n
  {
    if k > 0 {
      FromBigEndianInverts(n / 256, k - 1);
      LastByte(BigEndian(n / 256, k - 1), n % 256);
    }
  }

  lemma {:induction false} LastByte(s: seq<byte>, b: byte)
    ensures FromBigEndian(s + [b]) == FromBigEndian(s) * 256 + b
  {
    assert (s + [b])[..|s|] == s;
  }

  lemma {:induction false} Pow256Values()
    ensures Pow256(1) == 0x100 && Pow256(2) == 0x1_0000
    ensures Pow256(4) == 0x1_0000_0000 && Pow256(8) == TWO64
  {
    assert Pow256(3) == 0x100_0000;
    assert Pow256(4) == 0x1_0000_0000;
    assert Pow256(5) == 0x100_0000_0000;
    assert Pow256(6) == 0x1_0000_0000_0000;
    assert Pow256(7) == 0x100_0000_0000_0000;
  }

  // ---- Heads ----

  /** The number of argument bytes the shortest head for n needs after its first byte. */
  function HeadWidth(n: uint64): (k: nat)
    ensures k in {0, 1, 2, 4, 8}
  {
    if n < 24 then 0 else if n < 0x100 then 1 else if n < 0x1_0000 then 2
    else if n < 0x1_0000_0000 then 4 else 8
  }

  function WidthCode(k: nat): int
    requires k in {1, 2, 4, 8}
  {
    if k == 1 then 24 else if k == 2 then 25 else if k == 4 then 26 else 27
  }

  function EncodeHead(major: int, n: uint64): (s: seq<byte>)
    requires 0 <= major < 8
    ensures |s| == 1 + HeadWidth(n)
  {
    var k := HeadWidth(n);
    if k == 0 then [major * 32 + n] else [major * 32 + WidthCode(k)] + BigEndian(n, k)
  }

  datatype Head = Head(major: int, n: nat, rest: seq<byte>)

  function DecodeHead(s: seq<byte>): (r: Option<Head>)
    ensures r.Some? ==> |r.value.rest| < |s| && 0 <= r.value.major < 8
  {
    if s == [] then None else
    var major, info := s[0] / 32, s[0] % 32;
    if info < 24 then Some(Head(major, info, s[1..]))
    else if info > 27 then None
    else
      var k := if info == 24 then 1 else if info == 25 then 2 else if info == 26 then 4 else 8;
      if |s| < 1 + k then None else Some(Head(major, FromBigEndian(s[1..1 + k]), s[1 + k..]))
  }

  lemma {:induction false} HeadRoundTrip(major: int, n: uint64, rest: seq<byte>)
    requires 0 <= major < 7
    ensures var s := EncodeHead(major, n) + rest;
            s != [] && s[0] != 0xf6 && DecodeHead(s) == Some(Head(major, n, rest))
  {
    hide Pow256, BigEndian, FromBigEndian;
    var k := HeadWidth(n);
    var s := EncodeHead(major, n) + rest;
    if k == 0 {
      assert s[1..] == rest;
    } else {
      Pow256Values();
      assert s[1..1 + k] == BigEndian(n, k);
      assert s[1 + k..] == rest;
      FromBigEndianInverts(n, k);
    }
  }

  // ---- Items ----

  function Encode(i: Item): (s: seq<byte>)
    requires Fits(i)
    decreases i, 1
  {
    match i
    case UInt(n) => EncodeHead(0, n)
    case NInt(n) => EncodeHead(1, n)
    case Bytes(b) => EncodeHead(2, |b|) + b
    case Text(b) => EncodeHead(3, |b|) + b
    case Array(items) => EncodeHead(4, |items|) + EncodeAll(items)
    case Map(kv) => EncodeHead(5, |kv| / 2) + EncodeAll(kv)
    case Null => [0xf6]
  }

  function EncodeAll(items: seq<Item>): seq<byte>
    requires AllFit(items)
    decreases items, 0
  {
    if items == [] then [] else Encode(items[0]) + EncodeAll(items[1..])
  }

  function Decode(s: seq<byte>): (r: Option<(Item, seq<byte>)>)
    ensures r.Some? ==> |r.value.1| < |s|
    decreases |s|, 0
  {
    if s != [] && s[0] == 0xf6 then Some((Null, s[1..])) else
    match DecodeHead(s)
    case None => None
    case Some(Head(major, n, rest)) =>
      if major == 0 then Some((UInt(n), rest))
      else if major == 1 then Some((NInt(n), rest))
      else if major == 2 || major == 3 then
        if |rest| < n then None
        else Some((if major == 2 then Bytes(rest[..n]) else Text(rest[..n]), rest[n..]))
      else if major == 4 || major == 5 then
        match DecodeAll(rest, if major == 4 then n else 2 * n) {
          case None => None
          case Some((items, tail)) => Some((if major == 4 then Array(items) else Map(items), tail))
        }
      else None
  }

  function DecodeAll(s: seq<byte>, count: nat): (r: Option<(seq<Item>, seq<byte>)>)
    ensures r.Some? ==> |r.value.0| == count && |r.value.1| <= |s|
    decreases |s|, 1
  {
    if count == 0 then Some(([], s)) else
    match Decode(s)
    case None => None
    case Some((first, rest)) =>
      match DecodeAll(rest, count - 1)
      case None => None
      case Some((others, tail)) => Some(([first] + others, tail))
  }

  lemma {:induction false} StringRoundTrip(text: bool, b: seq<byte>, rest: seq<byte>)
    requires |b| < TWO64
    ensures var i := if text then Text(b) else Bytes(b);
            Decode(Encode(i) + rest) == Some((i, rest))
  {
    var major := if text then 3 else 2;
    var i := if text then Text(b) else Bytes(b);
    assert Encode(i) + rest == EncodeHead(major, |b|) + (b + rest);
    HeadRoundTrip(major, |b|, b + rest);
    assert (b + rest)[..|b|] == b;
    assert (b + rest)[|b|..] == rest;
  }

  /** Reading what was written gives the item back and leaves exactly what followed it. */
  lemma {:induction false} DecodeEncode(i: Item, rest: seq<byte>)
    requires Fits(i)
    ensures Decode(Encode(i) + rest) == Some((i, rest))
    decreases i, 1
  {
    match i
    case Null => assert (Encode(i) + rest)[1..] == rest;
    case UInt(n) => HeadRoundTrip(0, n, rest);
    case NInt(n) => HeadRoundTrip(1, n, rest);
    case Bytes(b) => StringRoundTrip(false, b, rest);
    case Text(b) => StringRoundTrip(true, b, rest);
    case Array(items) =>
      DecodeEncodeAll(items, rest);
      ArrayRoundTrip(items, rest);
    case Map(kv) =>
      DecodeEncodeAll(kv, rest);
      MapRoundTrip(kv, rest);
  }

  /** After the head of an array or a map, its items are read. */
  lemma {:induction false} ReadsCounted(s: seq<byte>, major: nat, n: nat, body: seq<byte>, items: seq<Item>, rest: seq<byte>)
    requires s != [] && s[0] != 0xf6
    requires 4 <= major <= 5 && DecodeHead(s) == Some(Head(major, n, body))
    requires |items| == (if major == 4 then n else 2 * n)
    requires DecodeAll(body, |items|) == Some((items, rest))
    ensures Decode(s) == Some((if major == 4 then Array(items) else Map(items), rest))
  {
    hide DecodeHead, DecodeAll;
  }

  lemma {:induction false} ArrayRoundTrip(items: seq<Item>, rest: seq<byte>)
    requires Fits(Array(items))
    requires DecodeAll(EncodeAll(items) + rest, |items|) == Some((items, rest))
    ensures Decode(Encode(Array(items)) + rest) == Some((Array(items), rest))
  {
    hide EncodeAll, EncodeHead, Decode, DecodeHead, DecodeAll, HeadWidth;
    var body := EncodeAll(items) + rest;
    var s := EncodeHead(4, |items|) + body;
    Regroup(EncodeHead(4, |items|), EncodeAll(items), rest);
    HeadRoundTrip(4, |items|, body);
    ReadsCounted(s, 4, |items|, body, items, rest);
  }

  lemma {:induction false} MapRoundTrip(items: seq<Item>, rest: seq<byte>)
    requires Fits(Map(items))
    requires DecodeAll(EncodeAll(items) + rest, |items|) == Some((items, rest))
    ensures Decode(Encode(Map(items)) + rest) == Some((Map(items), rest))
  {
    hide EncodeAll, EncodeHead, Decode, DecodeHead, DecodeAll, HeadWidth;
    var body := EncodeAll(items) + rest;
    var s := EncodeHead(5, |items| / 2) + body;
    Regroup(EncodeHead(5, |items| / 2), EncodeAll(items), rest);
    HeadRoundTrip(5, |items| / 2, body);
    ReadsCounted(s, 5, |items| / 2, body, items, rest);
  }

  lemma {:induction false} Regroup(a: seq<byte>, b: seq<byte>, c: seq<byte>)
    ensures (a + b) + c == a + (b + c)
  {
  }

  lemma {:induction false} DecodeEncodeAll(items: seq<Item>, rest: seq<byte>)
    requires AllFit(items)
    ensures DecodeAll(EncodeAll(items) + rest, |items|) == Some((items, rest))
    decreases items, 0
  {
    if items == [] {
      assert EncodeAll(items) + rest == rest;
    } else {
      hide Encode, Decode;
      var tail := EncodeAll(items[1..]) + rest;
      Regroup(Encode(items[0]), EncodeAll(items[1..]), rest);
      DecodeEncode(items[0], tail);
      DecodeEncodeAll(items[1..], rest);
      assert [items[0]] + items[1..] == items;
    }
  }

  /** No item's bytes begin another's, and two items with the same bytes are the same item. */
  lemma {:induction false} PrefixFree(a: Item, b: Item, x: seq<byte>, y: seq<byte>)
    requires Fits(a) && Fits(b)
    requires Encode(a) + x == Encode(b) + y
    ensures a == b && x == y
  {
    DecodeEncode(a, x);
    DecodeEncode(b, y);
  }

  lemma {:induction false} EncodeInjective(a: Item, b: Item)
    requires Fits(a) && Fits(b)
    requires Encode(a) == Encode(b)
    ensures a == b
  {
    PrefixFree(a, b, [], []);
  }

  // ---- What a head looks like, and why it is the shortest ----

  /** A head byte by byte (RFC 8949, section 3): the type in the top three bits, then the count itself, or
      24 to 27 and the count in one, two, four or eight bytes, the first to hold it, highest byte first. */
  lemma {:induction false} HeadBytes(major: int, n: uint64)
    requires 0 <= major < 7
    ensures var s := EncodeHead(major, n);
            && s[0] / 32 == major
            && (n < 24 ==> |s| == 1 && s[0] % 32 == n)
            && (24 <= n < 0x100 ==> |s| == 2 && s[0] % 32 == 24)
            && (0x100 <= n < 0x1_0000 ==> |s| == 3 && s[0] % 32 == 25)
            && (0x1_0000 <= n < 0x1_0000_0000 ==> |s| == 5 && s[0] % 32 == 26)
            && (0x1_0000_0000 <= n ==> |s| == 9 && s[0] % 32 == 27)
            && forall j :: 1 <= j < |s| ==> s[j] == n / Pow256(|s| - 1 - j) % 256
  {
    var s, k := EncodeHead(major, n), HeadWidth(n);
    forall j | 1 <= j < |s| ensures s[j] == n / Pow256(|s| - 1 - j) % 256 {
      assert s[j] == BigEndian(n, k)[j - 1];
      BigEndianAt(n, k, j - 1);
    }
  }

  lemma {:induction false} BigEndianAt(n: nat, k: nat, j: nat)
    requires j < k
    ensures BigEndian(n, k)[j] == n / Pow256(k - 1 - j) % 256
  {
    if j < k - 1 {
      BigEndianAt(n / 256, k - 1, j);
      DivideAgain(n, Pow256(k - 2 - j));
    }
  }

  lemma {:induction false} DivideAgain(n: nat, p: nat)
    requires p >= 1
    ensures n / 256 / p == n / (256 * p)
  {
    var a, b := n / 256, n % 256;
    var q, r := a / p, a % p;
    assert n == (256 * p) * q + (256 * r + b);
    Quotient(256 * p, q, 256 * r + b);
  }

  lemma {:induction false} Quotient(d: nat, q: nat, r: nat)
    requires r < d
    ensures (d * q + r) / d == q
  {
    var n := d * q + r;
    var e := n / d - q;
    assert d * e == r - n % d;
    Multiple(d, e);
  }

  lemma {:induction false} Multiple(d: int, e: int)
    requires d > 0
    ensures e >= 1 ==> d * e >= d
    ensures e <= -1 ==> d * e <= -d
  {
  }

  /** A longer head than needed reads as the same count. */
  lemma {:induction false} LongHead(major: int, n: nat, k: nat, rest: seq<byte>)
    requires 0 <= major < 8 && k in {1, 2, 4, 8} && n < Pow256(k)
    ensures DecodeHead([major * 32 + WidthCode(k)] + BigEndian(n, k) + rest) == Some(Head(major, n, rest))
  {
    var s := [major * 32 + WidthCode(k)] + BigEndian(n, k) + rest;
    assert s[1..1 + k] == BigEndian(n, k);
    assert s[1 + k..] == rest;
    FromBigEndianInverts(n, k);
  }

  lemma {:induction false} FromBigEndianFits(s: seq<byte>)
    ensures FromBigEndian(s) < Pow256(|s|)
  {
    if s != [] {
      FromBigEndianFits(s[..|s| - 1]);
    }
  }

  lemma {:induction false} BigEndianInverts(s: seq<byte>)
    ensures BigEndian(FromBigEndian(s), |s|) == s
  {
    if s != [] {
      BigEndianInverts(s[..|s| - 1]);
      LastDigit(FromBigEndian(s[..|s| - 1]), s[|s| - 1]);
    }
  }

  lemma {:induction false} LastDigit(q: nat, d: byte)
    ensures (q * 256 + d) / 256 == q && (q * 256 + d) % 256 == d
  {
  }

  /** No head that reads as this type and count is shorter, and none as short is another. */
  lemma {:induction false} ShortestHead(s: seq<byte>, major: int, n: nat, rest: seq<byte>)
    requires DecodeHead(s) == Some(Head(major, n, rest))
    ensures n < TWO64
    ensures |EncodeHead(major, n)| + |rest| <= |s|
    ensures |EncodeHead(major, n)| + |rest| == |s| ==> s == EncodeHead(major, n) + rest
  {
    if s[0] % 32 < 24 {
      assert s == [s[0]] + rest;
      assert s[0] == major * 32 + n;
    } else {
      var k := |s| - |rest| - 1;
      assert rest == s[1 + k..] && n == FromBigEndian(s[1..1 + k]);
      WideHead(s, k);
    }
  }

  lemma {:induction false} WideHead(s: seq<byte>, k: nat)
    requires k in {1, 2, 4, 8} && |s| >= 1 + k && s[0] % 32 == WidthCode(k) && s[0] / 32 < 8
    ensures var n := FromBigEndian(s[1..1 + k]);
            n < TWO64 && HeadWidth(n) <= k && (HeadWidth(n) == k ==> s == EncodeHead(s[0] / 32, n) + s[1 + k..])
  {
    Pow256Values();
    FromBigEndianFits(s[1..1 + k]);
    BigEndianInverts(s[1..1 + k]);
    assert s == [s[0]] + s[1..1 + k] + s[1 + k..];
    hide FromBigEndian, BigEndian, Pow256;
  }

  /** All bytes that read as an item are at least as long as what is written for it, and as long only if
      they are what is written: the writing is the one shortest. */
  lemma {:induction false} ShortestItem(s: seq<byte>, i: Item, rest: seq<byte>)
    requires Decode(s) == Some((i, rest))
    ensures Fits(i)
    ensures |Encode(i)| + |rest| <= |s|
    ensures |Encode(i)| + |rest| == |s| ==> s == Encode(i) + rest
    decreases |s|, 0
  {
    hide DecodeHead, EncodeHead, HeadWidth, EncodeAll, DecodeAll, AllFit;
    if s[0] == 0xf6 {
      assert s == Encode(Null) + rest;
    } else {
      var Head(major, n, tail) := DecodeHead(s).value;
      ShortestHead(s, major, n, tail);
      var head := EncodeHead(major, n);
      if major == 2 || major == 3 {
        assert tail == tail[..n] + rest;
        Longer(s, head, tail[..n], tail, rest);
      } else if major >= 4 {
        var items := if major == 4 then i.items else i.kv;
        ShortestItems(tail, items, rest);
        Longer(s, head, EncodeAll(items), tail, rest);
      }
    }
  }

  lemma {:induction false} Longer(s: seq<byte>, head: seq<byte>, x: seq<byte>, tail: seq<byte>, rest: seq<byte>)
    requires |head| + |tail| <= |s| && (|head| + |tail| == |s| ==> s == head + tail)
    requires |x| + |rest| <= |tail| && (|x| + |rest| == |tail| ==> tail == x + rest)
    ensures var e := head + x;
            |e| + |rest| <= |s| && (|e| + |rest| == |s| ==> s == e + rest)
  {
    Regroup(head, x, rest);
  }

  lemma {:induction false} ShortestItems(s: seq<byte>, items: seq<Item>, rest: seq<byte>)
    requires DecodeAll(s, |items|) == Some((items, rest))
    ensures AllFit(items)
    ensures |EncodeAll(items)| + |rest| <= |s|
    ensures |EncodeAll(items)| + |rest| == |s| ==> s == EncodeAll(items) + rest
    decreases |s|, 1
  {
    if items != [] {
      var (first, more) := Decode(s).value;
      var others := DecodeAll(more, |items| - 1).value.0;
      assert items == [first] + others;
      assert items[1..] == others;
      ShortestItem(s, first, more);
      ShortestItems(more, others, rest);
      Regroup(Encode(first), EncodeAll(others), rest);
    }
  }

  /** The first byte names the type: 0 and 1 for the numbers, 2 and 3 for byte and text strings, 4 and 5 for
      arrays and maps, and null is the byte f6. */
  lemma {:induction false} FirstByte(i: Item)
    requires Fits(i)
    ensures var b := Encode(i)[0];
            && (i.UInt? <==> b / 32 == 0) && (i.NInt? <==> b / 32 == 1)
            && (i.Bytes? <==> b / 32 == 2) && (i.Text? <==> b / 32 == 3)
            && (i.Array? <==> b / 32 == 4) && (i.Map? <==> b / 32 == 5)
            && (i.Null? <==> b == 0xf6)
  {
  }

  // ---- UTF-8 (RFC 3629, section 4), which a decoder checks in text strings and an encoder does not ----

  predicate Continuation(b: byte) { 0x80 <= b <= 0xbf }

  /** The length of the well-formed character that starts s, or 0. */
  function Utf8Step(s: seq<byte>): (n: nat)
    ensures n <= |s|
  {
    if |s| >= 1 && s[0] < 0x80 then 1
    else if |s| >= 2 && 0xc2 <= s[0] <= 0xdf && Continuation(s[1]) then 2
    else if |s| >= 3 && 0xe0 <= s[0] <= 0xef && Continuation(s[1]) && Continuation(s[2])
            && (s[0] == 0xe0 ==> s[1] >= 0xa0) && (s[0] == 0xed ==> s[1] <= 0x9f) then 3
    else if |s| >= 4 && 0xf0 <= s[0] <= 0xf4 && Continuation(s[1]) && Continuation(s[2]) && Continuation(s[3])
            && (s[0] == 0xf0 ==> s[1] >= 0x90) && (s[0] == 0xf4 ==> s[1] <= 0x8f) then 4
    else 0
  }

  predicate ValidUtf8(s: seq<byte>)
    decreases |s|
  {
    s == [] || (Utf8Step(s) > 0 && ValidUtf8(s[Utf8Step(s)..]))
  }

  lemma {:induction false} AsciiIsUtf8(s: seq<byte>)
    requires forall k :: 0 <= k < |s| ==> s[k] < 0x80
    ensures ValidUtf8(s)
  {
    if s != [] {
      AsciiIsUtf8(s[1..]);
    }
  }

  /** A Unicode scalar value. */
  predicate Scalar(c: int) { 0 <= c < 0xd800 || 0xe000 <= c < 0x11_0000 }

  /** Its bytes: RFC 3629, section 3. */
  function Utf8(c: int): (s: seq<byte>)
    requires Scalar(c)
    ensures 1 <= |s| <= 4
  {
    if c < 0x80 then [c]
    else if c < 0x800 then [0xc0 + c / 64, 0x80 + c % 64]
    else if c < 0x1_0000 then [0xe0 + c / 4096, 0x80 + c / 64 % 64, 0x80 + c % 64]
    else [0xf0 + c / 262144, 0x80 + c / 4096 % 64, 0x80 + c / 64 % 64, 0x80 + c % 64]
  }

  function Utf8Text(cs: seq<int>): seq<byte>
    requires forall k :: 0 <= k < |cs| ==> Scalar(cs[k])
  {
    if cs == [] then [] else Utf8(cs[0]) + Utf8Text(cs[1..])
  }

  lemma {:induction false} TwoSteps(c: int)
    requires 0x80 <= c < 0x800
    ensures 0xc2 <= 0xc0 + c / 64 <= 0xdf
  {
  }

  lemma {:induction false} ThreeSteps(c: int)
    requires 0x800 <= c < 0x1_0000 && Scalar(c)
    ensures var x, y := 0xe0 + c / 4096, 0x80 + c / 64 % 64;
            0xe0 <= x <= 0xef && (x == 0xe0 ==> y >= 0xa0) && (x == 0xed ==> y <= 0x9f)
  {
    var q := c / 64;
    assert c / 4096 == q / 64;
    assert q < 0x360 || q >= 0x380;
  }

  lemma {:induction false} FourSteps(c: int)
    requires 0x1_0000 <= c < 0x11_0000
    ensures var x, y := 0xf0 + c / 262144, 0x80 + c / 4096 % 64;
            0xf0 <= x <= 0xf4 && (x == 0xf0 ==> y >= 0x90) && (x == 0xf4 ==> y <= 0x8f)
  {
    var q := c / 4096;
    assert c / 262144 == q / 64;
  }

  lemma {:induction false} StepOverOne(c: int, rest: seq<byte>)
    requires Scalar(c)
    ensures Utf8Step(Utf8(c) + rest) == |Utf8(c)|
  {
    if 0x80 <= c < 0x800 {
      TwoSteps(c);
    } else if 0x800 <= c < 0x1_0000 {
      ThreeSteps(c);
    } else if c >= 0x1_0000 {
      FourSteps(c);
    }
  }

  lemma {:induction false} ThreeBytes(x: byte, y: byte, z: byte) returns (c: int)
    requires 0xe0 <= x <= 0xef && Continuation(y) && Continuation(z)
    requires (x == 0xe0 ==> y >= 0xa0) && (x == 0xed ==> y <= 0x9f)
    ensures Scalar(c) && Utf8(c) == [x, y, z]
  {
    var q: int := (x - 0xe0) * 64 + (y - 0x80);
    c := q * 64 + (z - 0x80);
    assert c / 64 == q && c % 64 == z - 0x80;
    assert q / 64 == x - 0xe0 && q % 64 == y - 0x80;
    assert c / 4096 == q / 64;
  }

  lemma {:induction false} FourBytes(x: byte, y: byte, z: byte, w: byte) returns (c: int)
    requires 0xf0 <= x <= 0xf4 && Continuation(y) && Continuation(z) && Continuation(w)
    requires (x == 0xf0 ==> y >= 0x90) && (x == 0xf4 ==> y <= 0x8f)
    ensures Scalar(c) && Utf8(c) == [x, y, z, w]
  {
    var p: int := (x - 0xf0) * 64 + (y - 0x80);
    var q: int := p * 64 + (z - 0x80);
    c := q * 64 + (w - 0x80);
    assert c / 64 == q && c % 64 == w - 0x80;
    assert q / 64 == p && q % 64 == z - 0x80;
    assert p / 64 == x - 0xf0 && p % 64 == y - 0x80;
    assert c / 4096 == p && c / 262144 == p / 64;
  }

  lemma {:induction false} StepIsScalar(s: seq<byte>) returns (c: int)
    requires Utf8Step(s) > 0
    ensures Scalar(c) && s == Utf8(c) + s[Utf8Step(s)..]
  {
    var n := Utf8Step(s);
    if n == 1 {
      c := s[0];
    } else if n == 2 {
      var x: int, y: int := s[0] - 0xc0, s[1] - 0x80;
      c := x * 64 + y;
      assert c / 64 == x && c % 64 == y;
    } else if n == 3 {
      c := ThreeBytes(s[0], s[1], s[2]);
    } else {
      c := FourBytes(s[0], s[1], s[2], s[3]);
    }
    assert s == s[..n] + s[n..];
  }

  lemma {:induction false} ScalarsAreUtf8(cs: seq<int>)
    requires forall k :: 0 <= k < |cs| ==> Scalar(cs[k])
    ensures ValidUtf8(Utf8Text(cs))
  {
    hide Utf8Step;
    if cs != [] {
      var s := Utf8Text(cs);
      StepOverOne(cs[0], Utf8Text(cs[1..]));
      assert s[|Utf8(cs[0])|..] == Utf8Text(cs[1..]);
      ScalarsAreUtf8(cs[1..]);
    }
  }

  lemma {:induction false} Utf8IsScalars(s: seq<byte>) returns (cs: seq<int>)
    requires ValidUtf8(s)
    ensures (forall k :: 0 <= k < |cs| ==> Scalar(cs[k])) && s == Utf8Text(cs)
    decreases |s|
  {
    hide Utf8Step;
    cs := [];
    if s != [] {
      var c := StepIsScalar(s);
      var more := Utf8IsScalars(s[Utf8Step(s)..]);
      cs := [c] + more;
      assert cs[1..] == more;
    }
  }

  /** The byte strings that pass are the texts of Unicode scalar values. */
  lemma {:induction false} ValidUtf8Iff(s: seq<byte>)
    ensures ValidUtf8(s) <==>
            exists cs: seq<int> :: (forall k :: 0 <= k < |cs| ==> Scalar(cs[k])) && s == Utf8Text(cs)
  {
    if ValidUtf8(s) {
      var cs := Utf8IsScalars(s);
    }
    forall cs: seq<int> | (forall k :: 0 <= k < |cs| ==> Scalar(cs[k])) && s == Utf8Text(cs) ensures ValidUtf8(s) {
      ScalarsAreUtf8(cs);
    }
  }
}
