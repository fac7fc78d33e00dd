/** go/protocol/agents.go and agent_invites.go: the bytes an owner's phone signs.

    Go strings are byte strings. A Go []byte or []string is an Option: nil is None, and CBOR writes a
    nil []byte as null. SHA-256 is a parameter. */
module Approvals {
  import opened Wrappers
  import opened Cbor
  import opened Ordering

  type GoString = s: seq<byte> | |s| < TWO64
  type GoBytes = Option<GoString>
  type GoList = Option<seq<GoString>>
  type Hash = seq<byte> -> GoString

  datatype Caps = Caps(holdS: uint64, maxW: uint64, perMin: uint64)

  datatype Principal = Principal(client: GoString, clientID: GoString, ticket: GoString)

  datatype SignedFor = SignedFor(boxKey: GoBytes, deviceID: GoString)

  datatype KeySet = KeySet(pub: GoBytes, atMs: int64, sig: GoBytes, prevSig: GoBytes)

  datatype Add = Add(
    key: GoBytes, role: GoString, scopes: GoList, ops: GoList, caps: Caps,
    expiresAtMs: int64, principal: Principal, atMs: int64, sig: GoBytes)

  datatype Widen = Widen(
    id: GoString, epoch: uint64, scopes: GoList, ops: GoList, caps: Caps,
    expiresAtMs: int64, atMs: int64, sig: GoBytes)

  datatype Confirm = Confirm(reqID: GoString, approve: bool, atMs: int64, sig: GoBytes)

  /** The stored request a confirmation answers; args is a CBOR map's keys and values. */
  datatype Request = Request(reqID: GoString, agent: GoString, op: GoString, args: Option<seq<Item>>, why: GoString)

  datatype InviteCreate = InviteCreate(
    home: GoString, id: GoString, hash: GoBytes, inviteLabel: GoString, scopes: GoList, ops: GoList, caps: Caps,
    claimUntilMs: int64, expiresAtMs: int64, atMs: int64, sig: GoBytes)

  datatype Error = Unsorted | Encoding

  function Ascii(s: string): (b: seq<byte>)
    ensures |b| == |s|
  {
    seq(|s|, i requires 0 <= i < |s| => if s[i] < 256 as char then s[i] as int else 0)
  }

  const APPROVAL_TAG := "ftw.approval.v1"
  const OFFER_TAG := "ftw.offer.v1"
  const KEY_SET := "approval.key.set"
  const AGENT_ADD := "agent.add"
  const AGENT_WIDEN := "agent.widen"
  const AGENT_CONFIRM := "agent.confirm"
  const INVITE_CREATE := "agent.invite.create"

  // ---- Encoding one approval ----

  datatype Field =
    | FBytes(b: GoBytes)
    | FText(s: GoString)
    | FInt(i: int64)
    | FUInt(n: uint64)
    | FUInts(ns: seq<uint64>)
    | FList(list: GoList)

  function BytesItem(b: GoBytes): Item {
    if b.None? then Null else Bytes(b.value)
  }

  function IntItem(i: int64): Item {
    if i >= 0 then UInt(i) else NInt(-1 - i)
  }

  function TextItems(list: seq<GoString>): (r: seq<Item>)
    ensures |r| == |list| && forall k :: 0 <= k < |list| ==> r[k] == Text(list[k])
  {
    if list == [] then [] else [Text(list[0])] + TextItems(list[1..])
  }

  function UIntItems(ns: seq<uint64>): (r: seq<Item>)
    ensures |r| == |ns| && forall k :: 0 <= k < |ns| ==> r[k] == UInt(ns[k])
  {
    if ns == [] then [] else [UInt(ns[0])] + UIntItems(ns[1..])
  }

  function FieldItem(f: Field): Item {
    match f
    case FBytes(b) => BytesItem(b)
    case FText(s) => Text(s)
    case FInt(i) => IntItem(i)
    case FUInt(n) => UInt(n)
    case FUInts(ns) => Array(UIntItems(ns))
    case FList(list) => if list.None? then Null else Array(TextItems(list.value))
  }

  function FieldItems(fields: seq<Field>): (r: seq<Item>)
    ensures |r| == |fields| && forall k :: 0 <= k < |fields| ==> r[k] == FieldItem(fields[k])
  {
    if fields == [] then [] else [FieldItem(fields[0])] + FieldItems(fields[1..])
  }

  predicate ListsSorted(fields: seq<Field>) {
    forall k :: 0 <= k < |fields| && fields[k].FList? && fields[k].list.Some? ==> SortedUnique(fields[k].list.value)
  }

  /** The array before it is written: the tag, what is approved, the box, the phone, its clock, the fields. */
  function ApprovalItem(what: GoString, f: SignedFor, atMs: int64, fields: seq<Field>): Item {
    Array([Text(Ascii(APPROVAL_TAG)), Text(what), BytesItem(f.boxKey), Text(f.deviceID), IntItem(atMs)]
          + FieldItems(fields))
  }

  function ApprovalBytes(what: GoString, f: SignedFor, atMs: int64, fields: seq<Field>)
    : Result<seq<byte>, Error>
  {
    if !ListsSorted(fields) then Err(Unsorted) else
    var item := ApprovalItem(what, f, atMs, fields);
    if Fits(item) then Ok(Encode(item)) else Err(Encoding)
  }

  function CapsArray(c: Caps): Field { FUInts([c.holdS, c.maxW, c.perMin]) }

  function EmptyIfNil(list: GoList): seq<GoString> {
    if list.None? then [] else list.value
  }

  function Rights(list: GoList): Field { FList(Some(EmptyIfNil(list))) }

  function KeySetBytes(f: SignedFor, m: KeySet): Result<seq<byte>, Error> {
    ApprovalBytes(Ascii(KEY_SET), f, m.atMs, [FBytes(m.pub)])
  }

  function AddBytes(f: SignedFor, m: Add): Result<seq<byte>, Error> {
    ApprovalBytes(Ascii(AGENT_ADD), f, m.atMs,
      [FBytes(m.key), FText(m.role), Rights(m.scopes), Rights(m.ops), CapsArray(m.caps), FInt(m.expiresAtMs),
       FText(m.principal.client), FText(m.principal.clientID), FText(m.principal.ticket)])
  }

  function WidenBytes(f: SignedFor, m: Widen, key: GoBytes): Result<seq<byte>, Error> {
    ApprovalBytes(Ascii(AGENT_WIDEN), f, m.atMs,
      [FText(m.id), FBytes(key), FUInt(m.epoch), Rights(m.scopes), Rights(m.ops), CapsArray(m.caps),
       FInt(m.expiresAtMs)])
  }

  function ArgsItem(args: Option<seq<Item>>): Item { Map(if args.None? then [] else args.value) }

  function ArgsHash(sha: Hash, args: Option<seq<Item>>): Result<GoString, Error> {
    if Fits(ArgsItem(args)) then Ok(sha(Encode(ArgsItem(args)))) else Err(Encoding)
  }

  function ConfirmBytes(sha: Hash, f: SignedFor, m: Confirm, req: Request): Result<seq<byte>, Error> {
    match ArgsHash(sha, req.args)
    case Err(e) => Err(e)
    case Ok(sum) =>
      ApprovalBytes(Ascii(AGENT_CONFIRM), f, m.atMs, [FText(m.reqID), FText(req.agent), FText(req.op), FBytes(Some(sum))])
  }

  function InviteCreateBytes(f: SignedFor, m: InviteCreate): Result<seq<byte>, Error> {
    ApprovalBytes(Ascii(INVITE_CREATE), f, m.atMs,
      [FText(m.home), FText(m.id), FBytes(m.hash), FText(m.inviteLabel), Rights(m.scopes), Rights(m.ops),
       CapsArray(m.caps), FInt(m.claimUntilMs), FInt(m.expiresAtMs)])
  }

  function OfferItem(o: GoBytes): Item { Array([Text(Ascii(OFFER_TAG)), BytesItem(o)]) }

  function OfferBytes(o: GoBytes): seq<byte>
    requires Fits(OfferItem(o))
  {
    Encode(OfferItem(o))
  }

  // ---- What an owner agreed to, independent of its bytes ----

  /** Every signed approval, with what the box adds from its own records. */
  datatype Approval =
    | SetKey(keySet: KeySet)
    | Grant(add: Add)
    | Change(widen: Widen, key: GoBytes)
    | Answer(confirm: Confirm, request: Request)
    | Invite(invite: InviteCreate)

  function SignedBytes(sha: Hash, f: SignedFor, a: Approval): Result<seq<byte>, Error> {
    match a
    case SetKey(m) => KeySetBytes(f, m)
    case Grant(m) => AddBytes(f, m)
    case Change(m, key) => WidenBytes(f, m, key)
    case Answer(m, req) => ConfirmBytes(sha, f, m, req)
    case Invite(m) => InviteCreateBytes(f, m)
  }

  function AtMs(a: Approval): int64 {
    match a
    case SetKey(m) => m.atMs
    case Grant(m) => m.atMs
    case Change(m, _) => m.atMs
    case Answer(m, _) => m.atMs
    case Invite(m) => m.atMs
  }

  ghost predicate SameRights(a: GoList, b: GoList) { EmptyIfNil(a) == EmptyIfNil(b) }

  /** The two approvals agree in kind, time and every signed field. A nil list of rights is an empty
      one, and the arguments of a request count up to their hash. */
  ghost predicate SameApproval(sha: Hash, a: Approval, b: Approval) {
    AtMs(a) == AtMs(b) &&
    match (a, b)
    case (SetKey(x), SetKey(y)) => x.pub == y.pub
    case (Grant(x), Grant(y)) =>
      && x.key == y.key && x.role == y.role && x.caps == y.caps && x.expiresAtMs == y.expiresAtMs
      && x.principal == y.principal && SameRights(x.scopes, y.scopes) && SameRights(x.ops, y.ops)
    case (Change(x, k), Change(y, l)) =>
      && k == l && x.id == y.id && x.epoch == y.epoch && x.caps == y.caps && x.expiresAtMs == y.expiresAtMs
      && SameRights(x.scopes, y.scopes) && SameRights(x.ops, y.ops)
    case (Answer(x, r), Answer(y, s)) =>
      && x.reqID == y.reqID && r.agent == s.agent && r.op == s.op
      && ArgsHash(sha, r.args) == ArgsHash(sha, s.args)
    case (Invite(x), Invite(y)) =>
      && x.home == y.home && x.id == y.id && x.hash == y.hash && x.inviteLabel == y.inviteLabel && x.caps == y.caps
      && x.claimUntilMs == y.claimUntilMs && x.expiresAtMs == y.expiresAtMs
      && SameRights(x.scopes, y.scopes) && SameRights(x.ops, y.ops)
    case _ => false
  }

  // ---- Injectivity ----

  lemma {:induction false} FieldItemInjective(x: Field, y: Field)
    requires FieldItem(x) == FieldItem(y)
    requires x.FBytes? == y.FBytes? && x.FText? == y.FText? && x.FInt? == y.FInt?
    requires x.FUInt? == y.FUInt? && x.FUInts? == y.FUInts? && x.FList? == y.FList?
    ensures x == y
  {
    match x
    case FUInts(ns) =>
      assert forall k :: 0 <= k < |ns| ==> UIntItems(ns)[k] == UInt(ns[k]);
      assert forall k :: 0 <= k < |y.ns| ==> UIntItems(y.ns)[k] == UInt(y.ns[k]);
      assert ns == y.ns;
    case FList(Some(list)) =>
      var other := y.list.value;
      assert forall k :: 0 <= k < |list| ==> TextItems(list)[k] == Text(list[k]);
      assert forall k :: 0 <= k < |other| ==> TextItems(other)[k] == Text(other[k]);
      assert list == other;
    case _ =>
  }

  /** The same bytes carry the same kind, box, phone and time, and field for field the same items. */
  lemma {:induction false} ApprovalBytesInjective(
    what: GoString, f: SignedFor, atMs: int64, fields: seq<Field>,
    what': GoString, f': SignedFor, atMs': int64, fields': seq<Field>)
    requires ApprovalBytes(what, f, atMs, fields).Ok?
    requires ApprovalBytes(what, f, atMs, fields) == ApprovalBytes(what', f', atMs', fields')
    ensures what == what' && f == f' && atMs == atMs' && |fields| == |fields'|
    ensures forall k :: 0 <= k < |fields| ==> FieldItem(fields[k]) == FieldItem(fields'[k])
  {
    var a, b := ApprovalItem(what, f, atMs, fields), ApprovalItem(what', f', atMs', fields');
    EncodeInjective(a, b);
    assert a.items[1] == Text(what) && b.items[1] == Text(what');
    assert a.items[2] == BytesItem(f.boxKey) && b.items[2] == BytesItem(f'.boxKey);
    assert a.items[3] == Text(f.deviceID) && b.items[3] == Text(f'.deviceID);
    assert a.items[4] == IntItem(atMs) && b.items[4] == IntItem(atMs');
    assert a.items[5..] == FieldItems(fields) && b.items[5..] == FieldItems(fields');
  }

  function Kind(a: Approval): GoString {
    match a
    case SetKey(_) => Ascii(KEY_SET)
    case Grant(_) => Ascii(AGENT_ADD)
    case Change(_, _) => Ascii(AGENT_WIDEN)
    case Answer(_, _) => Ascii(AGENT_CONFIRM)
    case Invite(_) => Ascii(INVITE_CREATE)
  }

  /** The fields SignedBytes hands to ApprovalBytes. */
  function Fields(sha: Hash, a: Approval): seq<Field> {
    match a
    case SetKey(m) => [FBytes(m.pub)]
    case Grant(m) =>
      [FBytes(m.key), FText(m.role), Rights(m.scopes), Rights(m.ops), CapsArray(m.caps), FInt(m.expiresAtMs),
       FText(m.principal.client), FText(m.principal.clientID), FText(m.principal.ticket)]
    case Change(m, key) =>
      [FText(m.id), FBytes(key), FUInt(m.epoch), Rights(m.scopes), Rights(m.ops), CapsArray(m.caps),
       FInt(m.expiresAtMs)]
    case Answer(m, r) =>
      var sum := ArgsHash(sha, r.args);
      [FText(m.reqID), FText(r.agent), FText(r.op), FBytes(if sum.Ok? then Some(sum.value) else None)]
    case Invite(m) =>
      [FText(m.home), FText(m.id), FBytes(m.hash), FText(m.inviteLabel), Rights(m.scopes), Rights(m.ops),
       CapsArray(m.caps), FInt(m.claimUntilMs), FInt(m.expiresAtMs)]
  }

  lemma {:induction false} SignedBytesAre(sha: Hash, f: SignedFor, a: Approval)
    requires SignedBytes(sha, f, a).Ok?
    ensures SignedBytes(sha, f, a) == ApprovalBytes(Kind(a), f, AtMs(a), Fields(sha, a))
  {
  }

  lemma {:induction false} KindsDiffer(a: Approval, b: Approval)
    requires Kind(a) == Kind(b)
    ensures a.SetKey? == b.SetKey? && a.Grant? == b.Grant? && a.Change? == b.Change?
    ensures a.Answer? == b.Answer? && a.Invite? == b.Invite?
  {
    assert |Kind(a)| == |Kind(b)|;
  }

  lemma {:induction false} FieldShapes(sha: Hash, a: Approval, b: Approval, k: nat)
    requires Kind(a) == Kind(b)
    requires k < |Fields(sha, a)| == |Fields(sha, b)|
    requires FieldItem(Fields(sha, a)[k]) == FieldItem(Fields(sha, b)[k])
    ensures Fields(sha, a)[k] == Fields(sha, b)[k]
  {
    KindsDiffer(a, b);
    FieldItemInjective(Fields(sha, a)[k], Fields(sha, b)[k]);
  }

  // ---- What the signed bytes say ----

  /** The item is this text, byte for byte its ASCII codes. */
  ghost predicate Says(x: Item, s: string) {
    x.Text? && |x.b| == |s| && forall k :: 0 <= k < |s| ==> x.b[k] == s[k] as int
  }

  /** The item is this integer; CBOR's NInt(n) is -1 - n. */
  ghost predicate Number(x: Item, i: int) {
    (x.UInt? && x.n == i) || (x.NInt? && -1 - x.n == i)
  }

  /** The item is this byte string, or null for a nil one. */
  ghost predicate Octets(x: Item, b: GoBytes) {
    if b.Some? then x == Bytes(b.value) else x == Null
  }

  /** The item is the array of these texts; a nil list is an empty one. */
  ghost predicate Lists(x: Item, list: GoList) {
    && x.Array? && |x.items| == (if list.Some? then |list.value| else 0)
    && forall k :: 0 <= k < |x.items| ==> x.items[k] == Text(list.value[k])
  }

  /** The item is the array of the hold time, the power and the rate, in this order. */
  ghost predicate Limits(x: Item, c: Caps) {
    && x.Array? && |x.items| == 3
    && Number(x.items[0], c.holdS) && Number(x.items[1], c.maxW) && Number(x.items[2], c.perMin)
  }

  /** The array that these bytes are, whole. */
  ghost predicate IsArray(bytes: seq<byte>, xs: seq<Item>) { Decode(bytes) == Some((Array(xs), [])) }

  /** The first five places: the tag, the kind, the box's key, the phone and its clock. */
  ghost predicate Heads(xs: seq<Item>, kind: string, f: SignedFor, atMs: int) {
    && |xs| >= 5 && Says(xs[0], "ftw.approval.v1") && Says(xs[1], kind)
    && Octets(xs[2], f.boxKey) && xs[3] == Text(f.deviceID) && Number(xs[4], atMs)
  }

  /** All places, by what is approved. */
  ghost predicate Places(sha: Hash, f: SignedFor, a: Approval, xs: seq<Item>) {
    match a
    case SetKey(m) => Heads(xs, "approval.key.set", f, m.atMs) && |xs| == 6 && Octets(xs[5], m.pub)
    case Grant(m) =>
      && Heads(xs, "agent.add", f, m.atMs)
      && |xs| == 14 && Octets(xs[5], m.key) && xs[6] == Text(m.role)
      && Lists(xs[7], m.scopes) && Lists(xs[8], m.ops) && Limits(xs[9], m.caps) && Number(xs[10], m.expiresAtMs)
      && xs[11] == Text(m.principal.client) && xs[12] == Text(m.principal.clientID)
      && xs[13] == Text(m.principal.ticket)
    case Change(m, key) =>
      && Heads(xs, "agent.widen", f, m.atMs)
      && |xs| == 12 && xs[5] == Text(m.id) && Octets(xs[6], key) && Number(xs[7], m.epoch)
      && Lists(xs[8], m.scopes) && Lists(xs[9], m.ops) && Limits(xs[10], m.caps) && Number(xs[11], m.expiresAtMs)
    case Answer(m, req) =>
      var args := Map(if req.args.Some? then req.args.value else []);
      && Heads(xs, "agent.confirm", f, m.atMs)
      && |xs| == 9 && xs[5] == Text(m.reqID) && xs[6] == Text(req.agent) && xs[7] == Text(req.op)
      && Fits(args) && xs[8] == Bytes(sha(Encode(args)))
    case Invite(m) =>
      && Heads(xs, "agent.invite.create", f, m.atMs)
      && |xs| == 14 && xs[5] == Text(m.home) && xs[6] == Text(m.id) && Octets(xs[7], m.hash)
      && xs[8] == Text(m.inviteLabel) && Lists(xs[9], m.scopes) && Lists(xs[10], m.ops) && Limits(xs[11], m.caps)
      && Number(xs[12], m.claimUntilMs) && Number(xs[13], m.expiresAtMs)
  }

  lemma {:induction false} AsciiSays(s: string)
    requires |s| < 100 && forall k :: 0 <= k < |s| ==> s[k] < 128 as char
    ensures Says(Text(Ascii(s)), s)
  {
  }

  lemma {:induction false} FieldSays(f: Field)
    ensures f.FBytes? ==> Octets(FieldItem(f), f.b)
    ensures f.FText? ==> FieldItem(f) == Text(f.s)
    ensures f.FInt? ==> Number(FieldItem(f), f.i)
    ensures f.FUInt? ==> Number(FieldItem(f), f.n)
    ensures f.FList? && f.list.Some? ==> Lists(FieldItem(f), f.list)
  {
  }

  lemma {:induction false} CapsSay(c: Caps)
    ensures Limits(FieldItem(CapsArray(c)), c)
  {
    assert UIntItems([c.holdS, c.maxW, c.perMin])[2] == UInt(c.perMin);
  }

  lemma {:induction false} RightsSay(list: GoList)
    ensures Lists(FieldItem(Rights(list)), list)
  {
    FieldSays(Rights(list));
  }

  lemma {:induction false} HeadsArePlaced(sha: Hash, f: SignedFor, a: Approval, kind: string, xs: seq<Item>)
    requires Array(xs) == ApprovalItem(Kind(a), f, AtMs(a), Fields(sha, a))
    requires Kind(a) == Ascii(kind) && |kind| < 100 && forall k :: 0 <= k < |kind| ==> kind[k] < 128 as char
    ensures Heads(xs, kind, f, AtMs(a))
    ensures xs[5..] == FieldItems(Fields(sha, a))
  {
    hide Says, Fields, FieldItems, Ascii, Kind;
    AsciiSays("ftw.approval.v1");
    AsciiSays(kind);
  }

  lemma {:induction false} GrantIsPlaced(sha: Hash, f: SignedFor, m: Add, xs: seq<Item>)
    requires Heads(xs, "agent.add", f, m.atMs)
    requires |xs| == 14 && xs[5..] == FieldItems(Fields(sha, Grant(m)))
    ensures Places(sha, f, Grant(m), xs)
  {
    hide Heads, FieldItem, Octets, Number, Lists, Limits, Rights, CapsArray;
    var fields := Fields(sha, Grant(m));
    assert forall k :: 0 <= k < 9 ==> xs[5 + k] == xs[5..][k];
    FieldSays(fields[0]);
    FieldSays(fields[1]);
    RightsSay(m.scopes);
    RightsSay(m.ops);
    CapsSay(m.caps);
    FieldSays(fields[5]);
    FieldSays(fields[6]);
    FieldSays(fields[7]);
    FieldSays(fields[8]);
  }

  lemma {:induction false} ChangeIsPlaced(sha: Hash, f: SignedFor, m: Widen, key: GoBytes, xs: seq<Item>)
    requires Heads(xs, "agent.widen", f, m.atMs)
    requires |xs| == 12 && xs[5..] == FieldItems(Fields(sha, Change(m, key)))
    ensures Places(sha, f, Change(m, key), xs)
  {
    hide Heads, FieldItem, Octets, Number, Lists, Limits, Rights, CapsArray;
    var fields := Fields(sha, Change(m, key));
    assert forall k :: 0 <= k < 7 ==> xs[5 + k] == xs[5..][k];
    FieldSays(fields[0]);
    FieldSays(fields[1]);
    FieldSays(fields[2]);
    RightsSay(m.scopes);
    RightsSay(m.ops);
    CapsSay(m.caps);
    FieldSays(fields[6]);
  }

  lemma {:induction false} AnswerIsPlaced(sha: Hash, f: SignedFor, m: Confirm, req: Request, xs: seq<Item>)
    requires ArgsHash(sha, req.args).Ok?
    requires Heads(xs, "agent.confirm", f, m.atMs)
    requires |xs| == 9 && xs[5..] == FieldItems(Fields(sha, Answer(m, req)))
    ensures Places(sha, f, Answer(m, req), xs)
  {
    hide Heads;
    assert forall k :: 0 <= k < 4 ==> xs[5 + k] == xs[5..][k];
  }

  lemma {:induction false} InviteIsPlaced(sha: Hash, f: SignedFor, m: InviteCreate, xs: seq<Item>)
    requires Heads(xs, "agent.invite.create", f, m.atMs)
    requires |xs| == 14 && xs[5..] == FieldItems(Fields(sha, Invite(m)))
    ensures Places(sha, f, Invite(m), xs)
  {
    hide Heads, FieldItem, Octets, Number, Lists, Limits, Rights, CapsArray;
    var fields := Fields(sha, Invite(m));
    assert forall k :: 0 <= k < 9 ==> xs[5 + k] == xs[5..][k];
    FieldSays(fields[0]);
    FieldSays(fields[1]);
    FieldSays(fields[2]);
    FieldSays(fields[3]);
    RightsSay(m.scopes);
    RightsSay(m.ops);
    CapsSay(m.caps);
    FieldSays(fields[7]);
    FieldSays(fields[8]);
  }

  /** The items signed for an approval, in their places. */
  lemma {:induction false} ItemsArePlaced(sha: Hash, f: SignedFor, a: Approval, xs: seq<Item>)
    requires a.Answer? ==> ArgsHash(sha, a.request.args).Ok?
    requires Array(xs) == ApprovalItem(Kind(a), f, AtMs(a), Fields(sha, a))
    ensures Places(sha, f, a, xs)
  {
    hide FieldItems, FieldItem, Heads, Places, Ascii;
    assert |xs| == 5 + |Fields(sha, a)|;
    match a {
      case SetKey(m) =>
        HeadsArePlaced(sha, f, a, "approval.key.set", xs);
        KeyIsPlaced(sha, f, m, xs);
      case Grant(m) =>
        HeadsArePlaced(sha, f, a, "agent.add", xs);
        GrantIsPlaced(sha, f, m, xs);
      case Change(m, key) =>
        HeadsArePlaced(sha, f, a, "agent.widen", xs);
        ChangeIsPlaced(sha, f, m, key, xs);
      case Answer(m, req) =>
        HeadsArePlaced(sha, f, a, "agent.confirm", xs);
        AnswerIsPlaced(sha, f, m, req, xs);
      case Invite(m) =>
        HeadsArePlaced(sha, f, a, "agent.invite.create", xs);
        InviteIsPlaced(sha, f, m, xs);
    }
  }

  lemma {:induction false} KeyIsPlaced(sha: Hash, f: SignedFor, m: KeySet, xs: seq<Item>)
    requires Heads(xs, "approval.key.set", f, m.atMs)
    requires |xs| == 6 && xs[5..] == FieldItems(Fields(sha, SetKey(m)))
    ensures Places(sha, f, SetKey(m), xs)
  {
    hide Heads;
    assert xs[5] == xs[5..][0];
  }

  /** The signed bytes are one array: the tag, the kind, the box, the phone and its clock, and then what is
      approved, each thing in its place. */
  lemma {:induction false} SignedArray(sha: Hash, f: SignedFor, a: Approval) returns (xs: seq<Item>)
    requires SignedBytes(sha, f, a).Ok?
    ensures IsArray(SignedBytes(sha, f, a).value, xs)
    ensures Places(sha, f, a, xs)
  {
    hide Places, Fields, Kind;
    SignedBytesAre(sha, f, a);
    var item := ApprovalItem(Kind(a), f, AtMs(a), Fields(sha, a));
    xs := item.items;
    DecodeEncode(item, []);
    assert Encode(item) + [] == Encode(item);
    ItemsArePlaced(sha, f, a, xs);
  }

  /** What an offer key signs: the array of its tag and the offer's bytes. */
  lemma {:induction false} OfferArray(o: GoBytes) returns (xs: seq<Item>)
    requires Fits(OfferItem(o))
    ensures IsArray(OfferBytes(o), xs)
    ensures |xs| == 2 && Says(xs[0], "ftw.offer.v1") && Octets(xs[1], o)
  {
    xs := OfferItem(o).items;
    DecodeEncode(OfferItem(o), []);
    assert Encode(OfferItem(o)) + [] == Encode(OfferItem(o));
    AsciiSays("ftw.offer.v1");
  }

  /** Two approvals with the same signed bytes are the same approval, for the same box and phone. */
  lemma {:induction false} SignedBytesDetermineApproval(sha: Hash, f: SignedFor, a: Approval, g: SignedFor, b: Approval)
    requires SignedBytes(sha, f, a).Ok?
    requires SignedBytes(sha, f, a) == SignedBytes(sha, g, b)
    ensures f == g && SameApproval(sha, a, b)
  {
    SignedBytesAre(sha, f, a);
    SignedBytesAre(sha, g, b);
    var x, y := Fields(sha, a), Fields(sha, b);
    ApprovalBytesInjective(Kind(a), f, AtMs(a), x, Kind(b), g, AtMs(b), y);
    KindsDiffer(a, b);
    forall k | 0 <= k < |x| ensures x[k] == y[k] {
      FieldShapes(sha, a, b, k);
    }
    SameFieldsSameApproval(sha, a, b);
  }

  lemma {:induction false} SameFieldsSameApproval(sha: Hash, a: Approval, b: Approval)
    requires Kind(a) == Kind(b) && AtMs(a) == AtMs(b)
    requires |Fields(sha, a)| == |Fields(sha, b)|
    requires forall k :: 0 <= k < |Fields(sha, a)| ==> Fields(sha, a)[k] == Fields(sha, b)[k]
    requires a.Answer? && b.Answer? ==> ArgsHash(sha, a.request.args).Ok? && ArgsHash(sha, b.request.args).Ok?
    ensures SameApproval(sha, a, b)
  {
    KindsDiffer(a, b);
    var x, y := Fields(sha, a), Fields(sha, b);
    assert x[0] == y[0];
    if !a.SetKey? {
      assert x[1] == y[1] && x[2] == y[2] && x[3] == y[3];
    }
    if a.Grant? || a.Change? || a.Invite? {
      assert x[4] == y[4] && x[5] == y[5] && x[6] == y[6];
      var caps, caps' := x[if a.Grant? then 4 else if a.Change? then 5 else 6].ns, y[if a.Grant? then 4 else if a.Change? then 5 else 6].ns;
      assert caps[0] == caps'[0] && caps[1] == caps'[1] && caps[2] == caps'[2];
    }
    if a.Grant? || a.Invite? {
      assert x[7] == y[7] && x[8] == y[8];
    }
  }

  /** And the same approval always signs the same bytes. */
  lemma {:induction false} SameApprovalSameBytes(sha: Hash, f: SignedFor, a: Approval, b: Approval)
    requires SameApproval(sha, a, b)
    ensures SignedBytes(sha, f, a) == SignedBytes(sha, f, b)
  {
  }

  /** An offer key never signs the bytes of an approval. */
  lemma {:induction false} OfferIsNoApproval(sha: Hash, f: SignedFor, a: Approval, o: GoBytes)
    requires SignedBytes(sha, f, a).Ok? && Fits(OfferItem(o))
    ensures SignedBytes(sha, f, a).value != OfferBytes(o)
  {
    SignedBytesAre(sha, f, a);
    var item := ApprovalItem(Kind(a), f, AtMs(a), Fields(sha, a));
    if Encode(item) == OfferBytes(o) {
      EncodeInjective(item, OfferItem(o));
    }
  }

  /** The rights an approval lists: scopes, then operations. */
  function RightsOf(a: Approval): seq<seq<GoString>> {
    match a
    case Grant(m) => [EmptyIfNil(m.scopes), EmptyIfNil(m.ops)]
    case Change(m, _) => [EmptyIfNil(m.scopes), EmptyIfNil(m.ops)]
    case Invite(m) => [EmptyIfNil(m.scopes), EmptyIfNil(m.ops)]
    case _ => []
  }

  /** A list is refused as unsorted unless each is the one increasing list of its set of rights. */
  lemma {:induction false} AcceptedRightsAreCanonical(sha: Hash, f: SignedFor, a: Approval)
    ensures SignedBytes(sha, f, a) != Err(Unsorted) <==>
            forall k :: 0 <= k < |RightsOf(a)| ==> RightsOf(a)[k] == Sorted(Elements(RightsOf(a)[k]))
  {
    RefusedIfUnsorted(sha, f, a);
    RightsSorted(sha, a);
    forall k | 0 <= k < |RightsOf(a)|
      ensures SortedUnique(RightsOf(a)[k]) <==> RightsOf(a)[k] == Sorted(Elements(RightsOf(a)[k]))
    {
      AcceptedListIsSorted(RightsOf(a)[k]);
    }
  }

  lemma {:induction false} RefusedIfUnsorted(sha: Hash, f: SignedFor, a: Approval)
    ensures SignedBytes(sha, f, a) == Err(Unsorted) <==> !ListsSorted(Fields(sha, a))
  {
  }

  /** The lists among the signed fields are the rights. */
  lemma {:induction false} RightsSorted(sha: Hash, a: Approval)
    ensures ListsSorted(Fields(sha, a)) <==> forall k :: 0 <= k < |RightsOf(a)| ==> SortedUnique(RightsOf(a)[k])
  {
    var fields, rights := Fields(sha, a), RightsOf(a);
    if |rights| == 2 {
      var i := if a.Grant? then 2 else if a.Change? then 3 else 4;
      assert fields[i] == FList(Some(rights[0])) && fields[i + 1] == FList(Some(rights[1]));
      assert forall k :: 0 <= k < |fields| && fields[k].FList? ==> k == i || k == i + 1;
    }
  }

  lemma {:induction false} AllFitIff(items: seq<Item>)
    ensures AllFit(items) <==> forall k :: 0 <= k < |items| ==> Fits(items[k])
  {
    if items != [] {
      AllFitIff(items[1..]);
      assert forall k :: 1 <= k < |items| ==> items[k] == items[1..][k - 1];
    }
  }

  lemma {:induction false} FieldFits(f: Field)
    requires f.FUInts? ==> |f.ns| == 3
    ensures Fits(FieldItem(f)) <==> !(f.FList? && f.list.Some? && |f.list.value| >= TWO64)
  {
    if f.FUInts? || (f.FList? && f.list.Some?) {
      AllFitIff(FieldItem(f).items);
    }
  }

  lemma {:induction false} FieldsFit(fields: seq<Field>)
    requires forall k :: 0 <= k < |fields| && fields[k].FUInts? ==> |fields[k].ns| == 3
    ensures AllFit(FieldItems(fields)) <==>
            forall k :: 0 <= k < |fields| && fields[k].FList? && fields[k].list.Some? ==> |fields[k].list.value| < TWO64
  {
    AllFitIff(FieldItems(fields));
    forall k | 0 <= k < |fields|
      ensures Fits(FieldItem(fields[k])) <==>
              !(fields[k].FList? && fields[k].list.Some? && |fields[k].list.value| >= TWO64)
    {
      FieldFits(fields[k]);
    }
    assert forall k :: 0 <= k < |fields| ==> FieldItems(fields)[k] == FieldItem(fields[k]);
  }

  lemma {:induction false} AppendFits(a: seq<Item>, b: seq<Item>)
    ensures AllFit(a + b) <==> AllFit(a) && AllFit(b)
  {
    AllFitIff(a);
    AllFitIff(b);
    AllFitIff(a + b);
    assert forall k :: 0 <= k < |a| ==> a[k] == (a + b)[k];
    assert forall k :: 0 <= k < |b| ==> b[k] == (a + b)[|a| + k];
  }

  lemma {:induction false} HeadsFit(what: GoString, f: SignedFor, atMs: int64)
    ensures AllFit([Text(Ascii(APPROVAL_TAG)), Text(what), BytesItem(f.boxKey), Text(f.deviceID), IntItem(atMs)])
  {
    AllFitIff([Text(Ascii(APPROVAL_TAG)), Text(what), BytesItem(f.boxKey), Text(f.deviceID), IntItem(atMs)]);
  }

  lemma {:induction false} ItemFits(sha: Hash, f: SignedFor, a: Approval)
    ensures Fits(ApprovalItem(Kind(a), f, AtMs(a), Fields(sha, a))) <==>
            forall k :: 0 <= k < |RightsOf(a)| ==> |RightsOf(a)[k]| < TWO64
  {
    hide Ascii, BytesItem, IntItem, AllFit, FieldItems, Fields, RightsOf, Kind, AtMs;
    var fields := Fields(sha, a);
    HeadsFit(Kind(a), f, AtMs(a));
    RightsAreLists(sha, a);
    FieldsFit(fields);
    var heads := [Text(Ascii(APPROVAL_TAG)), Text(Kind(a)), BytesItem(f.boxKey), Text(f.deviceID), IntItem(AtMs(a))];
    AppendFits(heads, FieldItems(fields));
    FewEnough(f, a, fields);
  }

  lemma {:induction false} FewEnough(f: SignedFor, a: Approval, fields: seq<Field>)
    requires |fields| < 100
    ensures Fits(ApprovalItem(Kind(a), f, AtMs(a), fields)) <==>
            AllFit([Text(Ascii(APPROVAL_TAG)), Text(Kind(a)), BytesItem(f.boxKey), Text(f.deviceID), IntItem(AtMs(a))]
                   + FieldItems(fields))
  {
    hide AllFit, Ascii, BytesItem, IntItem, Kind, AtMs;
  }

  /** The lists among the signed fields are the rights, and each array of numbers has three. */
  lemma {:induction false} RightsAreLists(sha: Hash, a: Approval)
    ensures |Fields(sha, a)| < 100
    ensures forall k :: 0 <= k < |Fields(sha, a)| && Fields(sha, a)[k].FUInts? ==> |Fields(sha, a)[k].ns| == 3
    ensures (forall k :: 0 <= k < |Fields(sha, a)| && Fields(sha, a)[k].FList? && Fields(sha, a)[k].list.Some? ==>
               |Fields(sha, a)[k].list.value| < TWO64) <==>
            (forall k :: 0 <= k < |RightsOf(a)| ==> |RightsOf(a)[k]| < TWO64)
  {
    var fields, rights := Fields(sha, a), RightsOf(a);
    if |rights| == 2 {
      var i := if a.Grant? then 2 else if a.Change? then 3 else 4;
      assert fields[i] == FList(Some(rights[0])) && fields[i + 1] == FList(Some(rights[1]));
      assert forall k :: 0 <= k < |fields| && fields[k].FList? ==> k == i || k == i + 1;
    }
  }

  /** The whole range of what is signed: increasing lists of rights and arguments that CBOR can count. */
  lemma {:induction false} SignedExactly(sha: Hash, f: SignedFor, a: Approval)
    ensures SignedBytes(sha, f, a).Ok? <==>
            && (a.Answer? && a.request.args.Some? ==> Fits(Map(a.request.args.value)))
            && forall k :: 0 <= k < |RightsOf(a)| ==>
                 RightsOf(a)[k] == Sorted(Elements(RightsOf(a)[k])) && |RightsOf(a)[k]| < TWO64
  {
    hide ApprovalItem, Fields, RightsOf, Sorted, Kind;
    AcceptedRightsAreCanonical(sha, f, a);
    RefusedIfUnsorted(sha, f, a);
    ItemFits(sha, f, a);
    OkWhen(sha, f, a);
  }

  lemma {:induction false} OkWhen(sha: Hash, f: SignedFor, a: Approval)
    ensures SignedBytes(sha, f, a).Ok? <==>
            && (a.Answer? && a.request.args.Some? ==> Fits(Map(a.request.args.value)))
            && ListsSorted(Fields(sha, a)) && Fits(ApprovalItem(Kind(a), f, AtMs(a), Fields(sha, a)))
  {
    hide ListsSorted, ApprovalItem;
    if a.Answer? {
      assert AllFit([]);
    }
  }

  /** Confirmations with the same bytes carry the same arguments, unless SHA-256 collides on the two. */
  lemma {:induction false} SameConfirmationSameArgs(sha: Hash, f: SignedFor, a: Approval, g: SignedFor, b: Approval)
    requires a.Answer? && b.Answer?
    requires SignedBytes(sha, f, a).Ok? && SignedBytes(sha, f, a) == SignedBytes(sha, g, b)
    ensures Fits(ArgsItem(a.request.args)) && Fits(ArgsItem(b.request.args))
    ensures var x, y := Encode(ArgsItem(a.request.args)), Encode(ArgsItem(b.request.args));
            sha(x) == sha(y) && (x == y ==> ArgsItem(a.request.args) == ArgsItem(b.request.args))
  {
    SignedBytesDetermineApproval(sha, f, a, g, b);
    var x, y := ArgsItem(a.request.args), ArgsItem(b.request.args);
    if Encode(x) == Encode(y) {
      EncodeInjective(x, y);
    }
  }
}
