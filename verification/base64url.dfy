/** Unpadded base64url (RFC 4648, sections 3.2 and 5), as Go's base64.RawURLEncoding writes and reads it:
    the reader skips line breaks and ignores the spare bits of the last character. */
module Base64Url {
  import opened Wrappers
  import opened Cbor

  type sextet = x: int | 0 <= x < 64

  function Letter(v: sextet): (c: char) {
    if v < 26 then 'A' + v as char
    else if v < 52 then 'a' + (v - 26) as char
    else if v < 62 then '0' + (v - 52) as char
    else if v == 62 then '-' else '_'
  }

  function Value(c: char): Option<sextet> {
    if 'A' <= c <= 'Z' then Some((c - 'A') as int)
    else if 'a' <= c <= 'z' then Some((c - 'a') as int + 26)
    else if '0' <= c <= '9' then Some((c - '0') as int + 52)
    else if c == '-' then Some(62)
    else if c == '_' then Some(63)
    else None
  }

  /** Three bytes as four six-bit values, two as three, one as two. */
  function Sextets(b: seq<byte>): (s: seq<sextet>)
    ensures |s| == (4 * |b| + 2) / 3
  {
    if |b| == 0 then []
    else if |b| == 1 then [b[0] / 4, b[0] % 4 * 16]
    else if |b| == 2 then [b[0] / 4, b[0] % 4 * 16 + b[1] / 16, b[1] % 16 * 4]
    else [b[0] / 4, b[0] % 4 * 16 + b[1] / 16, b[1] % 16 * 4 + b[2] / 64, b[2] % 64] + Sextets(b[3..])
  }

  function First(x: int, y: int): int { x * 4 + y / 16 }

  function Second(y: int, z: int): int { y % 16 * 16 + z / 4 }

  function Third(z: int, w: int): int { z % 4 * 64 + w }

  function Octets(s: seq<sextet>): Option<seq<byte>> {
    if |s| == 0 then Some([])
    else if |s| == 1 then None
    else if |s| == 2 then Some([First(s[0], s[1])])
    else if |s| == 3 then Some([First(s[0], s[1]), Second(s[1], s[2])])
    else
      match Octets(s[4..])
      case None => None
      case Some(rest) => Some([First(s[0], s[1]), Second(s[1], s[2]), Third(s[2], s[3])] + rest)
  }

  function Letters(s: seq<sextet>): (t: string)
    ensures |t| == |s|
  {
    if s == [] then [] else [Letter(s[0])] + Letters(s[1..])
  }

  function Values(t: string): Option<seq<sextet>> {
    if t == [] then Some([])
    else if t[0] == '\n' || t[0] == '\r' then Values(t[1..])
    else
      match (Value(t[0]), Values(t[1..]))
      case (Some(v), Some(rest)) => Some([v] + rest)
      case _ => None
  }

  function EncodeToString(b: seq<byte>): (t: string)
    ensures |t| == (4 * |b| + 2) / 3
  {
    Letters(Sextets(b))
  }

  function DecodeString(t: string): Option<seq<byte>> {
    match Values(t)
    case None => None
    case Some(s) => Octets(s)
  }

  lemma {:induction false} OctetsBack(x: byte, y: byte, z: byte)
    ensures First(x / 4, x % 4 * 16 + y / 16) == x
    ensures Second(x % 4 * 16 + y / 16, y % 16 * 4 + z / 64) == y
    ensures Third(y % 16 * 4 + z / 64, z % 64) == z
  {
  }

  lemma {:induction false} OneBack(x: byte)
    ensures Octets(Sextets([x])) == Some([x])
  {
    hide First;
    OctetsBack(x, 0, 0);
  }

  lemma {:induction false} TwoBack(x: byte, y: byte)
    ensures Octets(Sextets([x, y])) == Some([x, y])
  {
    hide First, Second, Octets, Sextets;
    TwoCut(x, y);
    TwoJoined(x / 4, x % 4 * 16 + y / 16, y % 16 * 4);
    OctetsBack(x, y, 0);
  }

  lemma {:induction false} TwoCut(x: byte, y: byte)
    ensures Sextets([x, y]) == [x / 4, x % 4 * 16 + y / 16, y % 16 * 4]
  {
  }

  lemma {:induction false} TwoJoined(a: sextet, b: sextet, c: sextet)
    ensures Octets([a, b, c]) == Some([First(a, b), Second(b, c)])
  {
    hide First, Second;
  }

  lemma {:induction false} ThreeAhead(x: byte, y: byte, z: byte, rest: seq<byte>)
    ensures Sextets([x, y, z] + rest) == [x / 4, x % 4 * 16 + y / 16, y % 16 * 4 + z / 64, z % 64] + Sextets(rest)
  {
    assert ([x, y, z] + rest)[3..] == rest;
  }

  lemma {:induction false} GroupAhead(a: sextet, b: sextet, c: sextet, d: sextet, rest: seq<sextet>)
    requires Octets(rest).Some?
    ensures Octets([a, b, c, d] + rest) == Some([First(a, b), Second(b, c), Third(c, d)] + Octets(rest).value)
  {
    assert ([a, b, c, d] + rest)[4..] == rest;
  }

  lemma {:induction false} OctetsOfSextets(b: seq<byte>)
    ensures Octets(Sextets(b)) == Some(b)
  {
    if |b| == 1 {
      OneBack(b[0]);
      assert b == [b[0]];
    } else if |b| == 2 {
      TwoBack(b[0], b[1]);
      assert b == [b[0], b[1]];
    } else if |b| >= 3 {
      OctetsBack(b[0], b[1], b[2]);
      OctetsOfSextets(b[3..]);
      ThreeAhead(b[0], b[1], b[2], b[3..]);
      GroupAhead(b[0] / 4, b[0] % 4 * 16 + b[1] / 16, b[1] % 16 * 4 + b[2] / 64, b[2] % 64, Sextets(b[3..]));
      assert b == [b[0], b[1], b[2]] + b[3..];
    }
  }

  lemma {:induction false} ValuesOfLetters(s: seq<sextet>)
    ensures Values(Letters(s)) == Some(s)
  {
    if s != [] {
      var t := Letters(s);
      assert Value(t[0]) == Some(s[0]);
      assert t[1..] == Letters(s[1..]);
      ValuesOfLetters(s[1..]);
      assert s == [s[0]] + s[1..];
    }
  }

  /** The alphabet of RFC 4648, section 5, by ASCII codes: A to Z, a to z, 0 to 9, minus and underscore. */
  ghost predicate Stands(c: char, v: int) {
    && (0 <= v < 26 ==> c as int == 65 + v)
    && (26 <= v < 52 ==> c as int == 97 + v - 26)
    && (52 <= v < 62 ==> c as int == 48 + v - 52)
    && (v == 62 ==> c as int == 45) && (v == 63 ==> c as int == 95)
  }

  lemma {:induction false} LetterAt(s: seq<sextet>, k: nat)
    requires k < |s|
    ensures Stands(Letters(s)[k], s[k])
  {
    if k > 0 {
      LetterAt(s[1..], k - 1);
    }
  }

  function ByteAt(b: seq<byte>, i: nat): byte { if i < |b| then b[i] else 0 }

  /** Three bytes from the i-th on as one number, with zeros past the end. */
  function Group(b: seq<byte>, i: nat): nat {
    ByteAt(b, i) * 65536 + ByteAt(b, i + 1) * 256 + ByteAt(b, i + 2)
  }

  /** The four six-bit digits of a group, from the highest. */
  function Digit(g: nat, j: nat): int {
    (if j == 0 then g / 262144 else if j == 1 then g / 4096 else if j == 2 then g / 64 else g) % 64
  }

  lemma {:induction false} FirstDigit(x: byte, y: byte, z: byte)
    ensures Digit(x * 65536 + y * 256 + z, 0) == x / 4
  {
    var p, r := x / 4, x % 4 * 65536 + y * 256 + z;
    assert x * 65536 + y * 256 + z == 262144 * p + r;
    Quotient(262144, p, r);
  }

  lemma {:induction false} SecondDigit(x: byte, y: byte, z: byte)
    ensures Digit(x * 65536 + y * 256 + z, 1) == x % 4 * 16 + y / 16
  {
    var p, q, r := x / 4, x % 4 * 16 + y / 16, y % 16 * 256 + z;
    assert x * 65536 + y * 256 + z == 4096 * (64 * p + q) + r;
    Quotient(4096, 64 * p + q, r);
    LastOf(p, q);
  }

  lemma {:induction false} ThirdDigit(x: byte, y: byte, z: byte)
    ensures Digit(x * 65536 + y * 256 + z, 2) == y % 16 * 4 + z / 64
  {
    var p, q := x * 16 + y / 16, y % 16 * 4 + z / 64;
    var r: int := z % 64;
    assert x * 65536 + y * 256 + z == 64 * (64 * p + q) + r;
    Quotient(64, 64 * p + q, r);
    LastOf(p, q);
  }

  lemma {:induction false} LastOf(p: nat, q: nat)
    requires q < 64
    ensures (64 * p + q) % 64 == q
  {
  }

  lemma {:induction false} FourthDigit(x: byte, y: byte, z: byte)
    ensures Digit(x * 65536 + y * 256 + z, 3) == z % 64
  {
    var p: int := x * 1024 + y * 4 + z / 64;
    assert x * 65536 + y * 256 + z == 64 * p + z % 64;
    LastOf(p, z % 64);
  }

  lemma {:induction false} FirstFour(b: seq<byte>, k: nat)
    requires k < 4 && k < |Sextets(b)|
    ensures Sextets(b)[k] == Digit(Group(b, 0), k)
  {
    hide Digit;
    FirstDigit(ByteAt(b, 0), ByteAt(b, 1), ByteAt(b, 2));
    SecondDigit(ByteAt(b, 0), ByteAt(b, 1), ByteAt(b, 2));
    ThirdDigit(ByteAt(b, 0), ByteAt(b, 1), ByteAt(b, 2));
    FourthDigit(ByteAt(b, 0), ByteAt(b, 1), ByteAt(b, 2));
  }

  lemma {:induction false} GroupBehind(b: seq<byte>, i: nat)
    requires |b| >= 3
    ensures Group(b, i + 3) == Group(b[3..], i)
  {
  }

  lemma {:induction false} SextetAt(b: seq<byte>, k: nat)
    requires k < |Sextets(b)|
    ensures Sextets(b)[k] == Digit(Group(b, k / 4 * 3), k % 4)
  {
    hide Digit, Group;
    if k < 4 {
      FirstFour(b, k);
    } else {
      SextetAt(b[3..], k - 4);
      assert k / 4 * 3 == (k - 4) / 4 * 3 + 3;
      GroupBehind(b, (k - 4) / 4 * 3);
    }
  }

  /** The text, character by character (RFC 4648, section 4): each group of three bytes gives four letters,
      six bits each from the highest on. */
  lemma {:induction false} EncodedText(b: seq<byte>, k: nat)
    requires k < |EncodeToString(b)|
    ensures Stands(EncodeToString(b)[k], Digit(Group(b, k / 4 * 3), k % 4))
  {
    LetterAt(Sextets(b), k);
    SextetAt(b, k);
  }

  // ---- Exactly what is read ----

  /** The text without its line breaks. */
  function Unbroken(t: string): string {
    if t == [] then []
    else if t[0] == '\n' || t[0] == '\r' then Unbroken(t[1..])
    else [t[0]] + Unbroken(t[1..])
  }

  ghost predicate InAlphabet(c: char) { exists v :: 0 <= v < 64 && Stands(c, v) }

  lemma {:induction false} ValueStands(c: char, v: sextet)
    ensures Value(c) == Some(v) <==> Stands(c, v)
    ensures Value(c) == Some(v) <==> Letter(v) == c
  {
  }

  lemma {:induction false} HasValue(c: char)
    ensures Value(c).Some? <==> InAlphabet(c)
  {
    if Value(c).Some? {
      ValueStands(c, Value(c).value);
    }
    forall v: sextet | Stands(c, v) ensures Value(c) == Some(v) {
      ValueStands(c, v);
    }
  }

  lemma {:induction false} LettersOfValues(t: string)
    ensures Values(t).Some? <==> forall c :: c in Unbroken(t) ==> InAlphabet(c)
    ensures Values(t).Some? ==> Letters(Values(t).value) == Unbroken(t)
  {
    hide Value, Letter, InAlphabet;
    if t != [] {
      LettersOfValues(t[1..]);
      if t[0] != '\n' && t[0] != '\r' {
        HasValue(t[0]);
        if Values(t).Some? {
          var v := Value(t[0]).value;
          ValueStands(t[0], v);
          assert Values(t).value[1..] == Values(t[1..]).value;
        }
      }
    }
  }

  /** The last value without the bits that no byte takes. */
  function Trimmed(v: sextet, count: nat): sextet {
    if count % 4 == 2 then v / 16 * 16 else if count % 4 == 3 then v / 4 * 4 else v
  }

  /** The same values, but for the spare bits of the last. */
  ghost predicate SameButLast(own: seq<sextet>, s: seq<sextet>) {
    && |own| == |s| && (forall k :: 0 <= k < |s| - 1 ==> own[k] == s[k])
    && (s != [] ==> own[|s| - 1] == Trimmed(s[|s| - 1], |s|))
  }

  lemma {:induction false} CutAgain(x: sextet, y: sextet, z: sextet, w: sextet)
    ensures First(x, y) / 4 == x && First(x, y) % 4 * 16 + Second(y, z) / 16 == y
    ensures Second(y, z) % 16 * 4 + Third(z, w) / 64 == z && Third(z, w) % 64 == w
    ensures First(x, y) % 4 * 16 == y / 16 * 16 && Second(y, z) % 16 * 4 == z / 4 * 4
  {
  }

  lemma {:induction false} FewHold(s: seq<sextet>)
    requires 2 <= |s| <= 3
    ensures Octets(s).Some? && SameButLast(Sextets(Octets(s).value), s)
  {
    hide First, Second, Third;
    CutAgain(s[0], s[1], if |s| == 3 then s[2] else 0, 0);
    if |s| == 2 {
      OneCut(First(s[0], s[1]));
    } else {
      TwoCut(First(s[0], s[1]), Second(s[1], s[2]));
    }
  }

  lemma {:induction false} OneCut(x: byte)
    ensures Sextets([x]) == [x / 4, x % 4 * 16]
  {
  }

  lemma {:induction false} OctetsHeld(s: seq<sextet>)
    ensures Octets(s).Some? <==> |s| % 4 != 1
    ensures Octets(s).Some? ==> SameButLast(Sextets(Octets(s).value), s)
  {
    hide First, Second, Third, Trimmed;
    if s == [] {
    } else if 2 <= |s| <= 3 {
      FewHold(s);
    } else if |s| >= 4 {
      OctetsHeld(s[4..]);
      if Octets(s[4..]).Some? {
        FourHeld(s, Octets(s[4..]).value);
      }
    }
  }

  lemma {:induction false} FourHeld(s: seq<sextet>, rest: seq<byte>)
    requires |s| >= 4 && Octets(s[4..]) == Some(rest) && SameButLast(Sextets(rest), s[4..])
    ensures Octets(s).Some? && SameButLast(Sextets(Octets(s).value), s)
  {
    var a, b, c := First(s[0], s[1]), Second(s[1], s[2]), Third(s[2], s[3]);
    assert Octets(s) == Some([a, b, c] + rest);
    CutAgain(s[0], s[1], s[2], s[3]);
    hide First, Second, Third, Octets, Sextets, SameButLast;
    ThreeAhead(a, b, c, rest);
    assert [a / 4, a % 4 * 16 + b / 16, b % 16 * 4 + c / 64, c % 64] == [s[0], s[1], s[2], s[3]] == s[..4];
    GroupBefore(s[..4], Sextets(rest), s[4..]);
    assert s == s[..4] + s[4..];
  }

  lemma {:induction false} GroupBefore(group: seq<sextet>, own: seq<sextet>, s: seq<sextet>)
    requires |group| == 4 && SameButLast(own, s)
    ensures SameButLast(group + own, group + s)
  {
    var x, y := group + own, group + s;
    if s == [] {
      assert own == [] && x == group && y == group;
    } else {
      assert x[|y| - 1] == own[|s| - 1] && y[|y| - 1] == s[|s| - 1];
      forall k | 0 <= k < |y| - 1 ensures x[k] == y[k] {
        if k >= 4 {
          assert x[k] == own[k - 4] && y[k] == s[k - 4];
        }
      }
    }
  }

  /** Exactly the texts that are read, and as which bytes: letters of the alphabet and line breaks, not one
      letter more than whole groups of four; the bytes' own text is the letters, but for the last one's bits
      that no byte takes. */
  lemma {:induction false} ReadText(t: string)
    ensures var u := Unbroken(t);
            DecodeString(t).Some? <==> |u| % 4 != 1 && forall c :: c in u ==> InAlphabet(c)
    ensures DecodeString(t).Some? ==>
              var u, own := Unbroken(t), EncodeToString(DecodeString(t).value);
              && |own| == |u| && (forall k :: 0 <= k < |u| - 1 ==> own[k] == u[k])
              && (|u| % 4 == 0 ==> own == u)
              && forall v: sextet :: u != [] && Stands(u[|u| - 1], v) ==> Stands(own[|u| - 1], Trimmed(v, |u|))
  {
    hide Octets, Sextets, Trimmed, InAlphabet;
    LettersOfValues(t);
    if Values(t).Some? {
      var s, u := Values(t).value, Unbroken(t);
      OctetsHeld(s);
      if Octets(s).Some? {
        OwnText(s, Octets(s).value, u);
      }
    }
  }

  lemma {:induction false} OwnText(s: seq<sextet>, b: seq<byte>, u: string)
    requires SameButLast(Sextets(b), s) && Letters(s) == u
    ensures var own := EncodeToString(b);
            && |own| == |u| && (forall k :: 0 <= k < |u| - 1 ==> own[k] == u[k])
            && (|u| % 4 == 0 ==> own == u)
            && forall v: sextet :: u != [] && Stands(u[|u| - 1], v) ==> Stands(own[|u| - 1], Trimmed(v, |u|))
  {
    hide Sextets;
    var own := EncodeToString(b);
    forall k | 0 <= k < |u|
      ensures own[k] == Letter(Sextets(b)[k]) && u[k] == Letter(s[k]) && Stands(own[k], Sextets(b)[k])
    {
      LetterIs(Sextets(b), k);
      LetterIs(s, k);
      ValueStands(own[k], Sextets(b)[k]);
    }
    if u != [] {
      var last := |u| - 1;
      forall v: sextet | Stands(u[last], v) ensures v == s[last] {
        ValueStands(u[last], v);
        ValueStands(u[last], s[last]);
      }
    }
  }

  lemma {:induction false} LetterIs(s: seq<sextet>, k: nat)
    requires k < |s|
    ensures Letters(s)[k] == Letter(s[k])
  {
    if k > 0 {
      LetterIs(s[1..], k - 1);
    }
  }

  /** Reading what was written gives back every byte string. */
  lemma {:induction false} DecodeAfterEncode(b: seq<byte>)
    ensures DecodeString(EncodeToString(b)) == Some(b)
  {
    ValuesOfLetters(Sextets(b));
    OctetsOfSextets(b);
  }
}
