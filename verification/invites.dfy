/** go/protocol/agent_invites.go: invitation codes and claims, written and read back. */
module Invites {
  import opened Wrappers
  import opened Cbor
  import opened Approvals
  import Base64Url
  import Ordering

  const SECRET_BYTES := 32
  const HANDSHAKE_MAX := 8192
  const CODE_MAX := 512

  datatype Refused = Refused

  // ---- Structs: maps from field names to items ----

  type Field = (seq<byte>, Item)

  function Flatten(fields: seq<Field>): seq<Item> {
    if fields == [] then [] else [Text(fields[0].0), fields[0].1] + Flatten(fields[1..])
  }

  // ---- Struct decoding: the fields of a CBOR map, strictly ----

  /** The keys are text, each known and none twice. */
  predicate KnownKeys(kv: seq<Item>, known: seq<seq<byte>>)
    decreases |kv|
  {
    |kv| < 2 ||
    (&& kv[0].Text? && kv[0].b in known
     && Lookup(kv[2..], kv[0].b).None?
     && KnownKeys(kv[2..], known))
  }

  function Lookup(kv: seq<Item>, key: seq<byte>): Option<Item>
    decreases |kv|
  {
    if |kv| < 2 then None
    else if kv[0] == Text(key) then Some(kv[1])
    else Lookup(kv[2..], key)
  }

  /** One whole item and nothing after it, a map with known keys only. */
  function StrictMap(raw: seq<byte>, known: seq<seq<byte>>): Option<seq<Item>> {
    match Decode(raw)
    case Some((Map(kv), rest)) => if rest == [] && KnownKeys(kv, known) then Some(kv) else None
    case _ => None
  }

  /** A missing key or a null leaves the field's zero value. Text must be UTF-8. */
  function TextField(kv: seq<Item>, key: seq<byte>): Option<GoString> {
    match Lookup(kv, key)
    case None => Some([])
    case Some(Null) => Some([])
    case Some(Text(s)) => if |s| < TWO64 && ValidUtf8(s) then Some(s) else None
    case Some(_) => None
  }

  function BytesField(kv: seq<Item>, key: seq<byte>): Option<GoBytes> {
    match Lookup(kv, key)
    case None => Some(None)
    case Some(Null) => Some(None)
    case Some(Bytes(b)) => if |b| < TWO64 then Some(Some(b)) else None
    case Some(_) => None
  }

  function UIntField(kv: seq<Item>, key: seq<byte>): Option<uint64> {
    match Lookup(kv, key)
    case None => Some(0)
    case Some(Null) => Some(0)
    case Some(UInt(n)) => if n < TWO64 then Some(n) else None
    case Some(_) => None
  }

  // ---- Invitation codes ----

  datatype Code = Code(v: uint64, home: GoString, box: GoBytes, secret: GoBytes) {

    predicate Valid() {
      && v == 1 && box.Some? && |box.value| == 32 && secret.Some? && |secret.value| == SECRET_BYTES && |home| == 26
      && forall k :: 0 <= k < |home| ==> 'a' as int <= home[k] <= 'z' as int || '2' as int <= home[k] <= '7' as int
    }

    /** Keys in the bytewise order of their encodings. */
    function Fields(): seq<Field> {
      [(Ascii("v"), UInt(v)), (Ascii("box"), BytesItem(box)), (Ascii("home"), Text(home)),
       (Ascii("secret"), BytesItem(secret))]
    }

    function ToItem(): Item {
      Map(Flatten(Fields()))
    }

    function Encode(): Result<string, Refused> {
      if Valid() && Fits(ToItem()) then Ok(Base64Url.EncodeToString(Cbor.Encode(ToItem()))) else Err(Refused)
    }
  }

  function CodeKeys(): seq<seq<byte>> { [Ascii("v"), Ascii("home"), Ascii("box"), Ascii("secret")] }

  function UnmarshalCode(raw: seq<byte>): Option<Code> {
    match StrictMap(raw, CodeKeys())
    case None => None
    case Some(kv) =>
      match (UIntField(kv, Ascii("v")), TextField(kv, Ascii("home")),
             BytesField(kv, Ascii("box")), BytesField(kv, Ascii("secret")))
      case (Some(v), Some(home), Some(box), Some(secret)) => Some(Code(v, home, box, secret))
      case _ => None
  }

  function ParseCode(raw: string): Result<Code, Refused> {
    if |raw| > CODE_MAX then Err(Refused) else
    match Base64Url.DecodeString(raw)
    case None => Err(Refused)
    case Some(b) =>
      match UnmarshalCode(b)
      case None => Err(Refused)
      case Some(c) => if c.Valid() then Ok(c) else Err(Refused)
  }

  // ---- Claims ----

  datatype SignedOffer = SignedOffer(o: GoBytes, kid: GoString, sig: GoBytes) {
    function Fields(): seq<Field> {
      [(Ascii("o"), BytesItem(o)), (Ascii("kid"), Text(kid)), (Ascii("sig"), BytesItem(sig))]
    }

    function ToItem(): Item {
      Map(Flatten(Fields()))
    }
  }

  function Prefix(): seq<byte> { Ascii("ftw.agent.invite.v1") + [0] }

  datatype Claim = Claim(secret: GoBytes, offer: SignedOffer) {

    predicate Sized() { secret.Some? && |secret.value| == SECRET_BYTES }

    function Fields(): seq<Field> {
      [(Ascii("offer"), offer.ToItem()), (Ascii("secret"), BytesItem(secret))]
    }

    function ToItem(): Item {
      Map(Flatten(Fields()))
    }

    function Payload(): Result<seq<byte>, Refused> {
      if !Sized() || !Fits(ToItem()) then Err(Refused) else
      var b := Cbor.Encode(ToItem());
      if |b| + |Prefix()| > HANDSHAKE_MAX then Err(Refused) else Ok(Prefix() + b)
    }
  }

  function ClaimKeys(): seq<seq<byte>> { [Ascii("secret"), Ascii("offer")] }

  function OfferKeys(): seq<seq<byte>> { [Ascii("o"), Ascii("kid"), Ascii("sig")] }

  function OfferField(kv: seq<Item>): Option<SignedOffer> {
    match Lookup(kv, Ascii("offer"))
    case None => Some(SignedOffer(None, [], None))
    case Some(Null) => Some(SignedOffer(None, [], None))
    case Some(Map(inner)) =>
      if !KnownKeys(inner, OfferKeys()) then None else (
      match (BytesField(inner, Ascii("o")), TextField(inner, Ascii("kid")), BytesField(inner, Ascii("sig")))
      case (Some(o), Some(kid), Some(sig)) => Some(SignedOffer(o, kid, sig))
      case _ => None)
    case Some(_) => None
  }

  function UnmarshalClaim(raw: seq<byte>): Option<Claim> {
    match StrictMap(raw, ClaimKeys())
    case None => None
    case Some(kv) =>
      match (BytesField(kv, Ascii("secret")), OfferField(kv))
      case (Some(secret), Some(offer)) => Some(Claim(secret, offer))
      case _ => None
  }

  function ParseClaim(b: seq<byte>): Result<Claim, Refused> {
    if !(Prefix() <= b) || |b| > HANDSHAKE_MAX then Err(Refused) else
    match UnmarshalClaim(b[|Prefix()|..])
    case None => Err(Refused)
    case Some(c) => if c.Sized() then Ok(c) else Err(Refused)
  }

  // ---- Round trips ----

  ghost predicate DistinctKeys(fields: seq<Field>) {
    forall i, j :: 0 <= i < j < |fields| ==> fields[i].0 != fields[j].0
  }

  lemma {:induction false} FlattenSize(fields: seq<Field>)
    ensures |Flatten(fields)| == 2 * |fields|
  {
    if fields != [] {
      FlattenSize(fields[1..]);
    }
  }

  lemma {:induction false} NoLookup(fields: seq<Field>, key: seq<byte>)
    requires forall i :: 0 <= i < |fields| ==> fields[i].0 != key
    ensures Lookup(Flatten(fields), key) == None
  {
    if fields != [] {
      assert Flatten(fields)[2..] == Flatten(fields[1..]);
      NoLookup(fields[1..], key);
    }
  }

  lemma {:induction false} StructLookup(fields: seq<Field>, i: nat)
    requires DistinctKeys(fields) && i < |fields|
    ensures Lookup(Flatten(fields), fields[i].0) == Some(fields[i].1)
  {
    assert Flatten(fields)[2..] == Flatten(fields[1..]);
    if i > 0 {
      StructLookup(fields[1..], i - 1);
    }
  }

  lemma {:induction false} StructKnown(fields: seq<Field>, known: seq<seq<byte>>)
    requires DistinctKeys(fields) && forall i :: 0 <= i < |fields| ==> fields[i].0 in known
    ensures KnownKeys(Flatten(fields), known)
  {
    if fields != [] {
      assert Flatten(fields)[2..] == Flatten(fields[1..]);
      NoLookup(fields[1..], fields[0].0);
      StructKnown(fields[1..], known);
    }
  }

  /** A struct written and decoded strictly gives its fields back. */
  lemma {:induction false} StructRoundTrip(fields: seq<Field>, known: seq<seq<byte>>)
    requires DistinctKeys(fields) && forall i :: 0 <= i < |fields| ==> fields[i].0 in known
    requires Fits(Map(Flatten(fields)))
    ensures StrictMap(Cbor.Encode(Map(Flatten(fields))), known) == Some(Flatten(fields))
    ensures forall i :: 0 <= i < |fields| ==> Lookup(Flatten(fields), fields[i].0) == Some(fields[i].1)
  {
    var raw := Cbor.Encode(Map(Flatten(fields)));
    DecodeEncode(Map(Flatten(fields)), []);
    assert raw + [] == raw;
    StructKnown(fields, known);
    forall i | 0 <= i < |fields| ensures Lookup(Flatten(fields), fields[i].0) == Some(fields[i].1) {
      StructLookup(fields, i);
    }
  }

  predicate FieldsFit(fields: seq<Field>) {
    forall i :: 0 <= i < |fields| ==> |fields[i].0| < TWO64 && Fits(fields[i].1)
  }

  function FieldsSize(fields: seq<Field>): nat
    requires FieldsFit(fields)
  {
    if fields == [] then 0
    else |Cbor.Encode(Text(fields[0].0))| + |Cbor.Encode(fields[0].1)| + FieldsSize(fields[1..])
  }

  lemma {:induction false} StructSize(fields: seq<Field>)
    requires FieldsFit(fields)
    ensures AllFit(Flatten(fields)) && |EncodeAll(Flatten(fields))| == FieldsSize(fields)
  {
    if fields != [] {
      var items, rest := Flatten(fields), Flatten(fields[1..]);
      StructSize(fields[1..]);
      assert items[1..] == [fields[0].1] + rest;
      assert items[1..][1..] == rest;
      assert AllFit(items[1..]);
      assert EncodeAll(items) == Cbor.Encode(items[0]) + (Cbor.Encode(fields[0].1) + EncodeAll(rest));
    }
  }

  /** A valid code has 116 bytes of CBOR. */
  lemma {:induction false} CodeSize(c: Code)
    requires c.Valid()
    ensures Fits(c.ToItem()) && |Cbor.Encode(c.ToItem())| == 116
  {
    hide Cbor.EncodeAll, FieldsSize, FieldsFit, Code.Valid;
    var f := c.Fields();
    CodeFieldsSize(c);
    StructSize(f);
    FlattenSize(f);
  }

  lemma {:induction false} TextSize(b: seq<byte>)
    requires |b| < 256
    ensures Fits(Text(b)) && |Cbor.Encode(Text(b))| == |b| + if |b| < 24 then 1 else 2
  {
  }

  lemma {:induction false} BytesSize(b: GoBytes)
    requires b.Some? ==> |b.value| < 256
    ensures Fits(BytesItem(b))
    ensures |Cbor.Encode(BytesItem(b))| == if b.None? then 1 else |b.value| + if |b.value| < 24 then 1 else 2
  {
  }

  lemma {:induction false} CodeFieldsSize(c: Code)
    requires c.Valid()
    ensures FieldsFit(c.Fields()) && FieldsSize(c.Fields()) == 115
  {
    hide Cbor.Encode, FieldsSize;
    var v, box, home, secret := (Ascii("v"), UInt(c.v)), (Ascii("box"), BytesItem(c.box)),
      (Ascii("home"), Text(c.home)), (Ascii("secret"), BytesItem(c.secret));
    TextSize(v.0);
    TextSize(box.0);
    TextSize(home.0);
    TextSize(secret.0);
    BytesSize(c.box);
    BytesSize(c.secret);
    TextSize(c.home);
    assert |Cbor.Encode(UInt(1))| == 1 by { OneSize(); }
    FirstFieldSize(secret, []);
    FirstFieldSize(home, [secret]);
    FirstFieldSize(box, [home, secret]);
    FirstFieldSize(v, [box, home, secret]);
    assert c.Fields() == [v] + [box, home, secret];
    assert [box, home, secret] == [box] + [home, secret] && [home, secret] == [home] + [secret];
    assert [secret] == [secret] + [];
    NoFieldSize();
  }

  lemma {:induction false} OneSize()
    ensures |Cbor.Encode(UInt(1))| == 1
  {
  }

  lemma {:induction false} NoFieldSize()
    ensures FieldsSize([]) == 0
  {
  }

  lemma {:induction false} FirstFieldSize(field: Field, rest: seq<Field>)
    requires |field.0| < TWO64 && Fits(field.1) && FieldsFit(rest)
    ensures FieldsFit([field] + rest)
    ensures FieldsSize([field] + rest) == |Cbor.Encode(Text(field.0))| + |Cbor.Encode(field.1)| + FieldsSize(rest)
  {
    assert ([field] + rest)[1..] == rest;
  }

  lemma {:induction false} NamesDiffer(c: Code, o: SignedOffer, claim: Claim)
    ensures DistinctKeys(c.Fields()) && DistinctKeys(o.Fields()) && DistinctKeys(claim.Fields())
  {
    assert |Ascii("v")| == 1 && |Ascii("box")| == 3 && |Ascii("home")| == 4 && |Ascii("secret")| == 6;
    assert |Ascii("o")| == 1 && |Ascii("kid")| == 3 && |Ascii("sig")| == 3 && |Ascii("offer")| == 5;
    assert Ascii("kid")[0] != Ascii("sig")[0];
  }

  /** Neighbouring keys stand in the bytewise order of their encodings (section 4.2.1 of RFC 8949). */
  ghost predicate KeysAscend(fields: seq<Field>) {
    forall i :: 0 <= i < |fields| - 1 ==> KeyBelow(fields[i].0, fields[i + 1].0)
  }

  ghost predicate KeyBelow(a: seq<byte>, b: seq<byte>) {
    |a| < TWO64 && |b| < TWO64 && Ordering.Less(Cbor.Encode(Text(a)), Cbor.Encode(Text(b)))
  }

  lemma {:induction false} ShortKeyBelow(a: seq<byte>, b: seq<byte>)
    requires |a| < 24 && |b| < 24
    requires |a| < |b| || (|a| == |b| > 0 && a[0] < b[0])
    ensures KeyBelow(a, b)
  {
    var x, y := Cbor.Encode(Text(a)), Cbor.Encode(Text(b));
    assert x == [3 * 32 + |a|] + a && y == [3 * 32 + |b|] + b;
    if |a| == |b| {
      assert x[1..] == a && y[1..] == b;
    }
  }

  lemma {:induction false} KeysAreCanonical(c: Code, o: SignedOffer, claim: Claim)
    ensures KeysAscend(c.Fields()) && KeysAscend(o.Fields()) && KeysAscend(claim.Fields())
  {
    ShortKeyBelow(Ascii("v"), Ascii("box"));
    ShortKeyBelow(Ascii("box"), Ascii("home"));
    ShortKeyBelow(Ascii("home"), Ascii("secret"));
    ShortKeyBelow(Ascii("o"), Ascii("kid"));
    ShortKeyBelow(Ascii("kid"), Ascii("sig"));
    ShortKeyBelow(Ascii("offer"), Ascii("secret"));
  }

  lemma {:induction false} UnmarshalsCode(c: Code)
    requires c.Valid() && Fits(c.ToItem())
    ensures UnmarshalCode(Cbor.Encode(c.ToItem())) == Some(c)
  {
    var f := c.Fields();
    NamesDiffer(c, SignedOffer(None, [], None), Claim(None, SignedOffer(None, [], None)));
    StructRoundTrip(f, CodeKeys());
    AsciiIsUtf8(c.home);
    assert f[0].0 == Ascii("v") && f[1].0 == Ascii("box") && f[2].0 == Ascii("home") && f[3].0 == Ascii("secret");
  }

  /** A code is written exactly when it is valid, in 155 characters, and reading it gives it back. */
  lemma {:induction false} CodeRoundTrip(c: Code)
    ensures c.Encode().Ok? <==> c.Valid()
    ensures c.Valid() ==> |c.Encode().value| == 155 && ParseCode(c.Encode().value) == Ok(c)
  {
    if c.Valid() {
      CodeSize(c);
      UnmarshalsCode(c);
      Base64Url.DecodeAfterEncode(Cbor.Encode(c.ToItem()));
    }
  }

  /** What the parser accepts is a valid code in at most 512 characters, and its own encoding, which may
      be another text, is accepted as the same code. */
  lemma {:induction false} ParsedCodeIsValid(raw: string)
    requires ParseCode(raw).Ok?
    ensures |raw| <= CODE_MAX
    ensures var c := ParseCode(raw).value; c.Encode().Ok? && ParseCode(c.Encode().value) == Ok(c)
  {
    CodeRoundTrip(ParseCode(raw).value);
  }

  // ---- Exactly what strict decoding takes ----

  /** The keys are text, each one of the names, and no two are the same. */
  ghost predicate EachOnce(kv: seq<Item>, known: seq<seq<byte>>)
    requires |kv| % 2 == 0
  {
    && (forall i :: 0 <= i < |kv| / 2 ==> kv[2 * i].Text? && kv[2 * i].b in known)
    && forall i, j :: 0 <= i < j < |kv| / 2 ==> kv[2 * i] != kv[2 * j]
  }

  ghost predicate PairAt(kv: seq<Item>, i: nat, key: seq<byte>, x: Item) {
    2 * i + 1 < |kv| && kv[2 * i] == Text(key) && kv[2 * i + 1] == x
  }

  lemma {:induction false} Behind(kv: seq<Item>, i: nat)
    requires |kv| >= 2 && 2 * i + 1 < |kv[2..]|
    ensures kv[2..][2 * i] == kv[2 * (i + 1)] && kv[2..][2 * i + 1] == kv[2 * (i + 1) + 1]
  {
  }

  lemma {:induction false} LookupFinds(kv: seq<Item>, key: seq<byte>) returns (i: nat)
    requires Lookup(kv, key).Some?
    ensures PairAt(kv, i, key, Lookup(kv, key).value)
    decreases |kv|
  {
    i := 0;
    if kv[0] != Text(key) {
      i := LookupFinds(kv[2..], key);
      Behind(kv, i);
      i := i + 1;
    }
  }

  lemma {:induction false} LookupMisses(kv: seq<Item>, key: seq<byte>, i: nat)
    requires |kv| % 2 == 0 && Lookup(kv, key).None? && i < |kv| / 2
    ensures kv[2 * i] != Text(key)
    decreases |kv|
  {
    if i > 0 {
      LookupMisses(kv[2..], key, i - 1);
      Behind(kv, i - 1);
    }
  }

  lemma {:induction false} KnownAreEachOnce(kv: seq<Item>, known: seq<seq<byte>>)
    requires |kv| % 2 == 0 && KnownKeys(kv, known)
    ensures EachOnce(kv, known)
    decreases |kv|
  {
    if kv != [] {
      KnownAreEachOnce(kv[2..], known);
      forall i | 0 < i < |kv| / 2 ensures kv[2 * i].Text? && kv[2 * i].b in known && kv[0] != kv[2 * i] {
        Behind(kv, i - 1);
        LookupMisses(kv[2..], kv[0].b, i - 1);
      }
      forall i, j | 0 < i < j < |kv| / 2 ensures kv[2 * i] != kv[2 * j] {
        Behind(kv, i - 1);
        Behind(kv, j - 1);
      }
    }
  }

  lemma {:induction false} EachOnceAreKnown(kv: seq<Item>, known: seq<seq<byte>>)
    requires |kv| % 2 == 0 && EachOnce(kv, known)
    ensures KnownKeys(kv, known)
    decreases |kv|
  {
    if kv != [] {
      forall i | 0 <= i < |kv[2..]| / 2 ensures kv[2..][2 * i] == kv[2 * (i + 1)] {
        Behind(kv, i);
      }
      EachOnceAreKnown(kv[2..], known);
      assert kv[2 * 0].Text? && kv[2 * 0].b in known;
      if Lookup(kv[2..], kv[0].b).Some? {
        var i := LookupFinds(kv[2..], kv[0].b);
        Behind(kv, i);
      }
    }
  }

  lemma {:induction false} OnlyPair(kv: seq<Item>, known: seq<seq<byte>>, i: nat, key: seq<byte>, x: Item)
    requires |kv| % 2 == 0 && EachOnce(kv, known) && PairAt(kv, i, key, x)
    ensures Lookup(kv, key) == Some(x)
  {
    if Lookup(kv, key).None? {
      LookupMisses(kv, key, i);
    } else {
      var j := LookupFinds(kv, key);
      assert i == j;
    }
  }

  /** A struct is taken from one whole map, whose keys are the struct's names, in any order, none twice. */
  lemma {:induction false} StrictMapTakes(raw: seq<byte>, known: seq<seq<byte>>, kv: seq<Item>)
    ensures StrictMap(raw, known) == Some(kv) <==>
            Decode(raw) == Some((Map(kv), [])) && |kv| % 2 == 0 && EachOnce(kv, known)
  {
    if Decode(raw) == Some((Map(kv), [])) {
      ShortestItem(raw, Map(kv), []);
      if KnownKeys(kv, known) {
        KnownAreEachOnce(kv, known);
      } else if EachOnce(kv, known) {
        EachOnceAreKnown(kv, known);
      }
    }
  }

  // ---- What codes and claims are, as bytes ----

  /** One of the map's pairs has this name and this item. */
  ghost predicate Has(kv: seq<Item>, name: string, x: Item) {
    exists i: nat :: 2 * i + 1 < |kv| && Says(kv[2 * i], name) && kv[2 * i + 1] == x
  }

  /** Twenty-six letters a to z or digits 2 to 7. */
  ghost predicate HomeName(home: seq<byte>) {
    |home| == 26 && forall k :: 0 <= k < 26 ==> 97 <= home[k] <= 122 || 50 <= home[k] <= 55
  }

  /** The map holds a code's four fields and nothing else, in any order. */
  ghost predicate HoldsCode(kv: seq<Item>, c: Code) {
    && |kv| == 8 && c.box.Some? && |c.box.value| == 32 && c.secret.Some? && |c.secret.value| == 32
    && c.v == 1 && HomeName(c.home)
    && Has(kv, "v", UInt(1)) && Has(kv, "home", Text(c.home))
    && Has(kv, "box", Bytes(c.box.value)) && Has(kv, "secret", Bytes(c.secret.value))
  }

  lemma {:induction false} SaysIs(x: Item, name: string)
    requires |name| < 100 && forall k :: 0 <= k < |name| ==> name[k] < 128 as char
    ensures Says(x, name) <==> x == Text(Ascii(name))
  {
    AsciiSays(name);
    if Says(x, name) {
      assert x.b == Ascii(name);
    }
  }

  /** What HoldsCode says of one field, by the key's bytes. */
  lemma {:induction false} HasIs(kv: seq<Item>, name: string, x: Item)
    requires |name| < 100 && forall k :: 0 <= k < |name| ==> name[k] < 128 as char
    ensures Has(kv, name, x) <==> exists i: nat :: PairAt(kv, i, Ascii(name), x)
  {
    hide Says;
    forall i: nat | 2 * i + 1 < |kv| ensures Says(kv[2 * i], name) <==> kv[2 * i] == Text(Ascii(name)) {
      SaysIs(kv[2 * i], name);
    }
    if i: nat :| PairAt(kv, i, Ascii(name), x) {
      assert Says(kv[2 * i], name) && kv[2 * i + 1] == x;
    }
    if i: nat :| 2 * i + 1 < |kv| && Says(kv[2 * i], name) && kv[2 * i + 1] == x {
      assert PairAt(kv, i, Ascii(name), x);
    }
  }

  /** Four distinct known keys in a map of four pairs: each pair has one of them. */
  lemma {:induction false} FourPairs(kv: seq<Item>, v: seq<byte>, home: seq<byte>, box: seq<byte>, secret: seq<byte>,
                                     a: nat, b: nat, c: nat, d: nat)
    requires |kv| == 8 && a < 4 && b < 4 && c < 4 && d < 4
    requires v != home && v != box && v != secret && home != box && home != secret && box != secret
    requires kv[2 * a] == Text(v) && kv[2 * b] == Text(home) && kv[2 * c] == Text(box) && kv[2 * d] == Text(secret)
    ensures EachOnce(kv, [v, home, box, secret])
  {
    forall i | 0 <= i < 4
      ensures kv[2 * i] == Text(v) || kv[2 * i] == Text(home) || kv[2 * i] == Text(box) || kv[2 * i] == Text(secret)
    {
      assert i == a || i == b || i == c || i == d;
    }
  }

  /** Four distinct keys each known once are all there is. */
  lemma {:induction false} NoFifthPair(kv: seq<Item>, v: seq<byte>, home: seq<byte>, box: seq<byte>, secret: seq<byte>,
                                       a: nat, b: nat, c: nat, d: nat)
    requires |kv| % 2 == 0 && EachOnce(kv, [v, home, box, secret])
    requires a < |kv| / 2 && b < |kv| / 2 && c < |kv| / 2 && d < |kv| / 2
    requires v != home && v != box && v != secret && home != box && home != secret && box != secret
    requires kv[2 * a] == Text(v) && kv[2 * b] == Text(home) && kv[2 * c] == Text(box) && kv[2 * d] == Text(secret)
    ensures |kv| == 8
  {
    var s: set<nat> := {a, b, c, d};
    forall i: nat | i < |kv| / 2 ensures i in s {
      assert kv[2 * i].b in [v, home, box, secret];
    }
    Indices(|kv| / 2, s);
  }

  lemma {:induction false} Indices(n: nat, s: set<nat>)
    requires forall i: nat :: i < n <==> i in s
    ensures |s| == n
  {
    if n > 0 {
      Indices(n - 1, s - {n - 1});
    }
  }

  lemma {:induction false} FourNames()
    ensures var v, home, box, secret := Ascii("v"), Ascii("home"), Ascii("box"), Ascii("secret");
            && v != home && v != box && v != secret && home != box && home != secret && box != secret
            && CodeKeys() == [v, home, box, secret]
  {
    assert |Ascii("v")| == 1 && |Ascii("box")| == 3 && |Ascii("home")| == 4 && |Ascii("secret")| == 6;
  }

  lemma {:induction false} HoldsCodeIs(kv: seq<Item>, c: Code)
    ensures HoldsCode(kv, c) <==>
            && |kv| == 8 && c.Valid()
            && (exists i: nat :: PairAt(kv, i, Ascii("v"), UInt(1)))
            && (exists i: nat :: PairAt(kv, i, Ascii("home"), Text(c.home)))
            && (exists i: nat :: PairAt(kv, i, Ascii("box"), Bytes(c.box.value)))
            && (exists i: nat :: PairAt(kv, i, Ascii("secret"), Bytes(c.secret.value)))
  {
    hide Has, PairAt, Ascii;
    HasIs(kv, "v", UInt(1));
    HasIs(kv, "home", Text(c.home));
    if c.box.Some? && c.secret.Some? {
      HasIs(kv, "box", Bytes(c.box.value));
      HasIs(kv, "secret", Bytes(c.secret.value));
    }
  }

  lemma {:induction false} HeldCodeIsRead(raw: seq<byte>, kv: seq<Item>, c: Code)
    requires Decode(raw) == Some((Map(kv), [])) && HoldsCode(kv, c)
    ensures UnmarshalCode(raw) == Some(c) && c.Valid()
  {
    hide PairAt, Ascii, StrictMap, Lookup, HoldsCode, EachOnce;
    FourNames();
    HoldsCodeIs(kv, c);
    var i: nat :| PairAt(kv, i, Ascii("v"), UInt(1));
    var j: nat :| PairAt(kv, j, Ascii("home"), Text(c.home));
    var k: nat :| PairAt(kv, k, Ascii("box"), Bytes(c.box.value));
    var l: nat :| PairAt(kv, l, Ascii("secret"), Bytes(c.secret.value));
    PairsAreKnown(kv, c, i, j, k, l);
    StrictMapTakes(raw, CodeKeys(), kv);
    OnlyPair(kv, CodeKeys(), i, Ascii("v"), UInt(1));
    OnlyPair(kv, CodeKeys(), j, Ascii("home"), Text(c.home));
    OnlyPair(kv, CodeKeys(), k, Ascii("box"), Bytes(c.box.value));
    OnlyPair(kv, CodeKeys(), l, Ascii("secret"), Bytes(c.secret.value));
    AsciiIsUtf8(c.home);
  }

  lemma {:induction false} PairsAreKnown(kv: seq<Item>, c: Code, i: nat, j: nat, k: nat, l: nat)
    requires |kv| == 8 && c.Valid()
    requires PairAt(kv, i, Ascii("v"), UInt(1)) && PairAt(kv, j, Ascii("home"), Text(c.home))
    requires PairAt(kv, k, Ascii("box"), Bytes(c.box.value)) && PairAt(kv, l, Ascii("secret"), Bytes(c.secret.value))
    ensures EachOnce(kv, CodeKeys())
  {
    hide Ascii, EachOnce;
    FourNames();
    FourPairs(kv, Ascii("v"), Ascii("home"), Ascii("box"), Ascii("secret"), i, j, k, l);
  }

  lemma {:induction false} ReadCodeIsHeld(raw: seq<byte>, kv: seq<Item>, c: Code)
    requires StrictMap(raw, CodeKeys()) == Some(kv) && UnmarshalCode(raw) == Some(c) && c.Valid()
    ensures Decode(raw) == Some((Map(kv), [])) && HoldsCode(kv, c)
  {
    hide Ascii, StrictMap, Lookup, HoldsCode, EachOnce;
    FourNames();
    StrictMapTakes(raw, CodeKeys(), kv);
    var i := LookupFinds(kv, Ascii("v"));
    var j := LookupFinds(kv, Ascii("home"));
    var k := LookupFinds(kv, Ascii("box"));
    var l := LookupFinds(kv, Ascii("secret"));
    NoFifthPair(kv, Ascii("v"), Ascii("home"), Ascii("box"), Ascii("secret"), i, j, k, l);
    HoldsCodeIs(kv, c);
  }

  /** Exactly the texts that are accepted, and as which code: at most 512 characters of base64url, whole CBOR,
      a map of the four fields, in any order, with a version, a home, a key and a secret of the right form. */
  lemma {:induction false} AcceptedCodes(raw: string, c: Code)
    ensures ParseCode(raw) == Ok(c) <==>
            && |raw| <= 512 && Base64Url.DecodeString(raw).Some?
            && exists kv :: Decode(Base64Url.DecodeString(raw).value) == Some((Map(kv), [])) && HoldsCode(kv, c)
  {
    hide StrictMap, HoldsCode, Code.Valid;
    if Base64Url.DecodeString(raw).Some? {
      var b := Base64Url.DecodeString(raw).value;
      if ParseCode(raw) == Ok(c) {
        ReadCodeIsHeld(b, StrictMap(b, CodeKeys()).value, c);
      }
      forall kv | Decode(b) == Some((Map(kv), [])) && HoldsCode(kv, c) ensures UnmarshalCode(b) == Some(c) && c.Valid() {
        HeldCodeIsRead(b, kv, c);
      }
    }
  }

  /** A code's text stands for one map: version, box, home and secret under their names, in this order. */
  lemma {:induction false} WrittenCode(c: Code) returns (b: seq<byte>, kv: seq<Item>)
    requires c.Encode().Ok?
    ensures Base64Url.DecodeString(c.Encode().value) == Some(b) && Decode(b) == Some((Map(kv), [])) && |kv| == 8
    ensures Says(kv[0], "v") && kv[1] == UInt(c.v) && Says(kv[2], "box") && Octets(kv[3], c.box)
    ensures Says(kv[4], "home") && kv[5] == Text(c.home) && Says(kv[6], "secret") && Octets(kv[7], c.secret)
  {
    hide Says, Octets, Flatten, Base64Url.DecodeString, Code.Valid;
    b, kv := Cbor.Encode(c.ToItem()), Flatten(c.Fields());
    Base64Url.DecodeAfterEncode(b);
    DecodeWhole(c.ToItem());
    CodeFields(c);
  }

  lemma {:induction false} DecodeWhole(i: Item)
    requires Fits(i)
    ensures Decode(Cbor.Encode(i)) == Some((i, []))
  {
    DecodeEncode(i, []);
    assert Cbor.Encode(i) + [] == Cbor.Encode(i);
  }

  lemma {:induction false} CodeFields(c: Code)
    ensures var kv := Flatten(c.Fields());
            && |kv| == 8 && Says(kv[0], "v") && kv[1] == UInt(c.v) && Says(kv[2], "box") && Octets(kv[3], c.box)
            && Says(kv[4], "home") && kv[5] == Text(c.home) && Says(kv[6], "secret") && Octets(kv[7], c.secret)
  {
    hide Says, Ascii, Octets, Flatten, BytesItem;
    BytesSay(c.box);
    BytesSay(c.secret);
    FlattenAt(c.Fields(), 0);
    FlattenAt(c.Fields(), 1);
    FlattenAt(c.Fields(), 2);
    FlattenAt(c.Fields(), 3);
    AsciiSays("v");
    AsciiSays("box");
    AsciiSays("home");
    AsciiSays("secret");
  }

  lemma {:induction false} FlattenAt(fields: seq<Field>, i: nat)
    requires i < |fields|
    ensures |Flatten(fields)| == 2 * |fields|
    ensures Flatten(fields)[2 * i] == Text(fields[i].0) && Flatten(fields)[2 * i + 1] == fields[i].1
  {
    FlattenSize(fields);
    assert Flatten(fields)[2..] == Flatten(fields[1..]);
    if i > 0 {
      FlattenAt(fields[1..], i - 1);
      Behind(Flatten(fields), i - 1);
    }
  }

  lemma {:induction false} WrittenOffer(o: SignedOffer)
    ensures var kv := Flatten(o.Fields());
            && |kv| == 6 && Says(kv[0], "o") && Octets(kv[1], o.o) && Says(kv[2], "kid") && kv[3] == Text(o.kid)
            && Says(kv[4], "sig") && Octets(kv[5], o.sig)
  {
    hide Says, Ascii;
    FlattenAt(o.Fields(), 0);
    FlattenAt(o.Fields(), 1);
    FlattenAt(o.Fields(), 2);
    AsciiSays("o");
    AsciiSays("kid");
    AsciiSays("sig");
  }

  /** A claim's payload is the prefix with its zero byte, and one map of the offer and the secret. */
  lemma {:induction false} WrittenClaim(c: Claim) returns (b: seq<byte>, kv: seq<Item>, inner: seq<Item>)
    requires c.Payload().Ok?
    ensures var p := c.Payload().value;
            |p| == 20 + |b| && Says(Text(p[..19]), "ftw.agent.invite.v1") && p[19] == 0 && p[20..] == b
    ensures Decode(b) == Some((Map(kv), [])) && |kv| == 4
    ensures Says(kv[0], "offer") && kv[1] == Map(inner) && Says(kv[2], "secret") && Octets(kv[3], c.secret)
    ensures |inner| == 6 && Says(inner[0], "o") && Octets(inner[1], c.offer.o)
    ensures Says(inner[2], "kid") && inner[3] == Text(c.offer.kid) && Says(inner[4], "sig") && Octets(inner[5], c.offer.sig)
  {
    b, kv, inner := Cbor.Encode(c.ToItem()), Flatten(c.Fields()), Flatten(c.offer.Fields());
    hide Says, Octets, Flatten, Ascii, Cbor.Encode;
    DecodeWhole(c.ToItem());
    ClaimFields(c);
    WrittenOffer(c.offer);
    PrefixAhead(b);
  }

  lemma {:induction false} ClaimFields(c: Claim)
    ensures var kv := Flatten(c.Fields());
            && |kv| == 4 && Says(kv[0], "offer") && kv[1] == Map(Flatten(c.offer.Fields()))
            && Says(kv[2], "secret") && Octets(kv[3], c.secret)
  {
    hide Says, Ascii, Octets, Flatten, BytesItem;
    FlattenAt(c.Fields(), 0);
    FlattenAt(c.Fields(), 1);
    BytesSay(c.secret);
    AsciiSays("offer");
    AsciiSays("secret");
  }

  lemma {:induction false} PrefixAhead(b: seq<byte>)
    ensures var p := Prefix() + b;
            |p| == 20 + |b| && Says(Text(p[..19]), "ftw.agent.invite.v1") && p[19] == 0 && p[20..] == b
  {
    AsciiSays("ftw.agent.invite.v1");
    var tag := Ascii("ftw.agent.invite.v1");
    assert (tag + [0] + b)[..19] == tag;
  }

  // ---- Exactly which claims are taken ----

  /** The map has this byte string under the name; for none, a null or nothing. */
  ghost predicate HasBytes(kv: seq<Item>, name: string, b: GoBytes) {
    if b.Some? then Has(kv, name, Bytes(b.value)) else Has(kv, name, Null) || HasNot(kv, name)
  }

  /** And this text, which is UTF-8; for an empty one a null or nothing will do. */
  ghost predicate HasText(kv: seq<Item>, name: string, s: GoString) {
    (Has(kv, name, Text(s)) && ValidUtf8(s)) || (s == [] && (Has(kv, name, Null) || HasNot(kv, name)))
  }

  ghost predicate HasNot(kv: seq<Item>, name: string) {
    forall i: nat :: 2 * i + 1 < |kv| ==> !Says(kv[2 * i], name)
  }

  /** Whole pairs under these names, none twice. */
  ghost predicate NamedOnce(kv: seq<Item>, names: seq<string>) {
    && |kv| % 2 == 0 && (forall i :: 0 <= i < |kv| / 2 ==> IsOneOf(kv[2 * i], names))
    && forall i, j :: 0 <= i < j < |kv| / 2 ==> kv[2 * i] != kv[2 * j]
  }

  ghost predicate IsOneOf(x: Item, names: seq<string>) { exists j :: 0 <= j < |names| && Says(x, names[j]) }

  lemma {:induction false} OneOfIs(x: Item, names: seq<string>, known: seq<seq<byte>>)
    requires |known| == |names| && forall j :: 0 <= j < |names| ==> known[j] == Ascii(names[j])
    requires forall j :: 0 <= j < |names| ==> |names[j]| < 100 && forall k :: 0 <= k < |names[j]| ==> names[j][k] < 128 as char
    ensures IsOneOf(x, names) <==> x.Text? && x.b in known
  {
    hide Says, Ascii;
    forall j | 0 <= j < |names| ensures Says(x, names[j]) <==> x == Text(known[j]) {
      SaysIs(x, names[j]);
    }
    if x.Text? && x.b in known {
      var j :| 0 <= j < |known| && known[j] == x.b;
      assert Says(x, names[j]);
    }
  }

  lemma {:induction false} NamedIs(kv: seq<Item>)
    ensures NamedOnce(kv, ["o", "kid", "sig"]) <==> |kv| % 2 == 0 && EachOnce(kv, OfferKeys())
    ensures NamedOnce(kv, ["secret", "offer"]) <==> |kv| % 2 == 0 && EachOnce(kv, ClaimKeys())
  {
    hide Ascii, IsOneOf;
    forall i | 0 <= i < |kv| / 2
      ensures IsOneOf(kv[2 * i], ["o", "kid", "sig"]) <==> kv[2 * i].Text? && kv[2 * i].b in OfferKeys()
      ensures IsOneOf(kv[2 * i], ["secret", "offer"]) <==> kv[2 * i].Text? && kv[2 * i].b in ClaimKeys()
    {
      OneOfIs(kv[2 * i], ["o", "kid", "sig"], OfferKeys());
      OneOfIs(kv[2 * i], ["secret", "offer"], ClaimKeys());
    }
  }

  /** The map of a signed offer: its three names, none twice. */
  ghost predicate HoldsOffer(kv: seq<Item>, o: SignedOffer) {
    && NamedOnce(kv, ["o", "kid", "sig"])
    && HasBytes(kv, "o", o.o) && HasText(kv, "kid", o.kid) && HasBytes(kv, "sig", o.sig)
  }

  ghost predicate HasOffer(kv: seq<Item>, o: SignedOffer) {
    || (o == SignedOffer(None, [], None) && (Has(kv, "offer", Null) || HasNot(kv, "offer")))
    || exists inner :: Has(kv, "offer", Map(inner)) && HoldsOffer(inner, o)
  }

  /** What Lookup gives, over the names. */
  lemma {:induction false} LookupIs(kv: seq<Item>, known: seq<seq<byte>>, name: string, x: Item)
    requires |name| < 100 && forall k :: 0 <= k < |name| ==> name[k] < 128 as char
    requires |kv| % 2 == 0 && EachOnce(kv, known)
    ensures Lookup(kv, Ascii(name)) == Some(x) <==> Has(kv, name, x)
    ensures Lookup(kv, Ascii(name)) == None <==> HasNot(kv, name)
  {
    hide Says, Ascii, EachOnce;
    HasIs(kv, name, x);
    var key := Ascii(name);
    if Lookup(kv, key).Some? {
      var i := LookupFinds(kv, key);
      SaysIs(kv[2 * i], name);
    } else {
      forall i: nat | 2 * i + 1 < |kv| ensures !Says(kv[2 * i], name) {
        LookupMisses(kv, key, i);
        SaysIs(kv[2 * i], name);
      }
    }
    forall i: nat | PairAt(kv, i, key, x) ensures Lookup(kv, key) == Some(x) {
      OnlyPair(kv, known, i, key, x);
    }
  }

  lemma {:induction false} FitsInside(kv: seq<Item>, known: seq<seq<byte>>, name: string, x: Item)
    requires |name| < 100 && forall k :: 0 <= k < |name| ==> name[k] < 128 as char
    requires |kv| % 2 == 0 && EachOnce(kv, known) && AllFit(kv) && Lookup(kv, Ascii(name)) == Some(x)
    ensures Fits(x)
  {
    var i := LookupFinds(kv, Ascii(name));
    AllFitIff(kv);
  }

  lemma {:induction false} BytesFieldIs(kv: seq<Item>, known: seq<seq<byte>>, name: string, b: GoBytes)
    requires |name| < 100 && forall k :: 0 <= k < |name| ==> name[k] < 128 as char
    requires |kv| % 2 == 0 && EachOnce(kv, known)
    ensures BytesField(kv, Ascii(name)) == Some(b) <==> HasBytes(kv, name, b)
  {
    hide Ascii, EachOnce, Lookup, Has, HasNot;
    LookupIs(kv, known, name, Null);
    if b.Some? {
      LookupIs(kv, known, name, Bytes(b.value));
    }
  }

  lemma {:induction false} TextFieldIs(kv: seq<Item>, known: seq<seq<byte>>, name: string, s: GoString)
    requires |name| < 100 && forall k :: 0 <= k < |name| ==> name[k] < 128 as char
    requires |kv| % 2 == 0 && EachOnce(kv, known)
    ensures TextField(kv, Ascii(name)) == Some(s) <==> HasText(kv, name, s)
  {
    hide Ascii, EachOnce, Lookup, Has, HasNot, ValidUtf8;
    LookupIs(kv, known, name, Null);
    LookupIs(kv, known, name, Text(s));
  }

  lemma {:induction false} OfferIs(inner: seq<Item>, o: SignedOffer)
    requires |inner| % 2 == 0
    ensures (KnownKeys(inner, OfferKeys())
             && BytesField(inner, Ascii("o")) == Some(o.o) && TextField(inner, Ascii("kid")) == Some(o.kid)
             && BytesField(inner, Ascii("sig")) == Some(o.sig)) <==> HoldsOffer(inner, o)
  {
    hide Ascii, EachOnce, BytesField, TextField, HasBytes, HasText, NamedOnce;
    NamedIs(inner);
    if KnownKeys(inner, OfferKeys()) {
      KnownAreEachOnce(inner, OfferKeys());
    }
    if EachOnce(inner, OfferKeys()) {
      EachOnceAreKnown(inner, OfferKeys());
      BytesFieldIs(inner, OfferKeys(), "o", o.o);
      TextFieldIs(inner, OfferKeys(), "kid", o.kid);
      BytesFieldIs(inner, OfferKeys(), "sig", o.sig);
    }
  }

  lemma {:induction false} OfferFieldIs(kv: seq<Item>, known: seq<seq<byte>>, o: SignedOffer)
    requires |kv| % 2 == 0 && EachOnce(kv, known) && AllFit(kv)
    ensures OfferField(kv) == Some(o) <==> HasOffer(kv, o)
  {
    hide Ascii, EachOnce, Has, HasNot, KnownKeys, BytesField, TextField, HoldsOffer, AllFit;
    LookupIs(kv, known, "offer", Null);
    var x := Lookup(kv, Ascii("offer"));
    forall inner ensures x == Some(Map(inner)) <==> Has(kv, "offer", Map(inner)) {
      LookupIs(kv, known, "offer", Map(inner));
    }
    if x.Some? && x.value.Map? {
      FitsInside(kv, known, "offer", x.value);
      OfferIs(x.value.kv, o);
    }
  }

  /** Exactly the payloads that are accepted, and as which claim: at most 8192 bytes, the prefix with its zero
      byte, and one whole map whose keys are secret and offer, none twice; a secret of 32 bytes; and the offer
      as it was written, or an empty one where it is missing or null. */
  lemma {:induction false} AcceptedClaims(p: seq<byte>, c: Claim)
    ensures ParseClaim(p) == Ok(c) <==>
            && 20 <= |p| <= 8192 && Says(Text(p[..19]), "ftw.agent.invite.v1") && p[19] == 0
            && c.secret.Some? && |c.secret.value| == 32
            && exists kv :: Decode(p[20..]) == Some((Map(kv), [])) && HoldsClaim(kv, c)
  {
    hide HoldsClaim, UnmarshalClaim, Ascii;
    PrefixIs(p);
    if |p| >= 20 {
      UnmarshalsExactly(p[20..], c);
    }
  }

  ghost predicate HoldsClaim(kv: seq<Item>, c: Claim) {
    NamedOnce(kv, ["secret", "offer"]) && HasBytes(kv, "secret", c.secret) && HasOffer(kv, c.offer)
  }

  lemma {:induction false} PrefixIs(p: seq<byte>)
    ensures |Prefix()| == 20
    ensures Prefix() <= p <==> 20 <= |p| && Says(Text(p[..19]), "ftw.agent.invite.v1") && p[19] == 0
  {
    hide Says;
    var tag := Ascii("ftw.agent.invite.v1");
    if |p| >= 20 {
      SaysIs(Text(p[..19]), "ftw.agent.invite.v1");
      assert p[..20] == p[..19] + [p[19]];
    }
    if Prefix() <= p {
      assert p[..20] == tag + [0] && p[..19] == tag;
    }
  }

  lemma {:induction false} UnmarshalsExactly(raw: seq<byte>, c: Claim)
    ensures UnmarshalClaim(raw) == Some(c) <==> exists kv :: Decode(raw) == Some((Map(kv), [])) && HoldsClaim(kv, c)
  {
    hide Ascii, StrictMap, EachOnce, BytesField, OfferField, HasBytes, HasOffer, Decode, AllFit, NamedOnce;
    if Decode(raw).Some? && Decode(raw).value.0.Map? && Decode(raw).value.1 == [] {
      var kv := Decode(raw).value.0.kv;
      ShortestItem(raw, Map(kv), []);
      StrictMapTakes(raw, ClaimKeys(), kv);
      NamedIs(kv);
      if EachOnce(kv, ClaimKeys()) {
        BytesFieldIs(kv, ClaimKeys(), "secret", c.secret);
        OfferFieldIs(kv, ClaimKeys(), c.offer);
      }
    }
    if StrictMap(raw, ClaimKeys()).Some? {
      StrictMapTakes(raw, ClaimKeys(), StrictMap(raw, ClaimKeys()).value);
      NamedIs(StrictMap(raw, ClaimKeys()).value);
    }
  }

  lemma {:induction false} BytesSay(b: GoBytes)
    ensures Octets(BytesItem(b), b)
  {
  }

  /** Exactly the claims that are written: a secret of 32 bytes, and at most 8192 bytes in all. */
  lemma {:induction false} WrittenClaims(c: Claim)
    ensures Fits(c.ToItem())
    ensures c.Payload().Ok? <==> c.secret.Some? && |c.secret.value| == 32 && |Cbor.Encode(c.ToItem())| + 20 <= 8192
  {
    ClaimFits(c);
  }

  lemma {:induction false} ReadsOffer(o: SignedOffer, kv: seq<Item>)
    requires Fits(o.ToItem())
    requires Lookup(kv, Ascii("offer")) == Some(o.ToItem())
    ensures OfferField(kv) == if ValidUtf8(o.kid) then Some(o) else None
  {
    var g := o.Fields();
    NamesDiffer(Code(0, [], None, None), o, Claim(None, o));
    StructRoundTrip(g, OfferKeys());
    StructKnown(g, OfferKeys());
    var inner := Flatten(g);
    assert Lookup(inner, g[0].0) == Some(g[0].1);
    assert Lookup(inner, g[1].0) == Some(g[1].1);
    assert Lookup(inner, g[2].0) == Some(g[2].1);
    assert BytesField(inner, Ascii("o")) == Some(o.o);
    assert BytesField(inner, Ascii("sig")) == Some(o.sig);
  }

  lemma {:induction false} UnmarshalsClaim(c: Claim)
    requires Fits(c.ToItem()) && Fits(c.offer.ToItem())
    ensures UnmarshalClaim(Cbor.Encode(c.ToItem())) == if ValidUtf8(c.offer.kid) then Some(c) else None
  {
    var f := c.Fields();
    NamesDiffer(Code(0, [], None, None), c.offer, c);
    StructRoundTrip(f, ClaimKeys());
    var kv := Flatten(f);
    assert Lookup(kv, f[0].0) == Some(f[0].1);
    assert Lookup(kv, f[1].0) == Some(f[1].1);
    ReadsOffer(c.offer, kv);
  }

  lemma {:induction false} ClaimFits(c: Claim)
    ensures Fits(c.offer.ToItem()) && Fits(c.ToItem())
  {
    StructSize(c.offer.Fields());
    FlattenSize(c.offer.Fields());
    StructSize(c.Fields());
    FlattenSize(c.Fields());
  }

  /** A claim that Payload accepts is read back exactly when its key id is UTF-8: the writer takes any
      Go string as text and the reader refuses text that is not UTF-8. */
  lemma {:induction false} ClaimRoundTrip(c: Claim)
    requires c.Payload().Ok?
    ensures |c.Payload().value| <= HANDSHAKE_MAX
    ensures ParseClaim(c.Payload().value) == if ValidUtf8(c.offer.kid) then Ok(c) else Err(Refused)
  {
    var raw := Cbor.Encode(c.ToItem());
    assert (Prefix() + raw)[|Prefix()|..] == raw;
    ClaimFits(c);
    UnmarshalsClaim(c);
  }

  /** Such a claim exists: one whose key id is the single byte 0xff. */
  lemma {:induction false} UnreadableClaimExists() returns (c: Claim)
    ensures c.Payload().Ok? && ParseClaim(c.Payload().value) == Err(Refused)
  {
    var o := SignedOffer(None, [0xff], None);
    c := Claim(Some(seq(32, i => 0)), o);
    SmallOffer(o);
    SmallClaim(c);
    assert !ValidUtf8([0xff]);
    ClaimRoundTrip(c);
  }

  lemma {:induction false} SmallOffer(o: SignedOffer)
    requires o.o == None && o.sig == None && |o.kid| == 1
    ensures Fits(o.ToItem()) && |Cbor.Encode(o.ToItem())| < 20
  {
    var g := o.Fields();
    StructSize(g);
    FlattenSize(g);
    var g1, g2 := g[1..], g[2..];
    assert g1[1..] == g2 && g2[1..] == [];
    assert FieldsSize(g2) == 4 + 1;
    assert FieldsSize(g1) == 4 + 2 + FieldsSize(g2);
    assert FieldsSize(g) == 2 + 1 + FieldsSize(g1);
  }

  lemma {:induction false} SmallClaim(c: Claim)
    requires c.Sized() && Fits(c.offer.ToItem()) && |Cbor.Encode(c.offer.ToItem())| < 20
    ensures Fits(c.ToItem()) && |Cbor.Encode(c.ToItem())| < 100
  {
    var f := c.Fields();
    StructSize(f);
    FlattenSize(f);
    var f1 := f[1..];
    assert f1[1..] == [];
    assert FieldsSize(f1) == 7 + 34;
    assert FieldsSize(f) == 6 + |Cbor.Encode(c.offer.ToItem())| + FieldsSize(f1);
  }
}
