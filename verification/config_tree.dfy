/** web/settings.js: the configuration a settings form edits in place, by paths such as "fuse.phases". */
module ConfigTree {
  import opened Wrappers

  /** A path, already split at its dots. */
  type Path = seq<string>

  datatype Plain = Null | Flag(b: bool) | Number(r: real) | Text(s: string) | Object

  function Falsy(v: Option<Plain>): (b: bool)
    ensures b ==> v != Some(Object)
  {
    match v
    case None => true
    case Some(Null) => true
    case Some(Flag(b)) => !b
    case Some(Number(r)) => r == 0.0
    case Some(Text(s)) => s == ""
    case Some(Object) => false
  }

  // ---- the tree as what each path shows ----

  /** Every path that has a value, an object's fields under the path of the object. */
  type Store = map<Path, Plain>

  function Get(s: Store, q: Path): Option<Plain> { if q in s then Some(s[q]) else None }

  ghost predicate Tree(s: Store) {
    && Get(s, []) == Some(Object)
    && forall q :: InObject(s, q)
  }

  /** What has a value is the top or a field of an object. */
  ghost predicate InObject(s: Store, q: Path) {
    q in s && q != [] ==> Get(s, q[..|q| - 1]) == Some(Object)
  }

  /** One assignment: what stood under p goes with it. */
  function Written(s: Store, p: Path, v: Plain): Store {
    (map q | q in s && !(p <= q) :: s[q])[p := v]
  }

  /** setByPath from the object at the first i parts on; None when it would write a field of a value
      that is no object, which throws. */
  function SetFrom(s: Store, parts: Path, i: nat, val: Plain): Option<Store>
    requires i < |parts|
    decreases |parts| - i
  {
    if i == |parts| - 1 then Some(Written(s, parts, val))
    else
      var here := parts[..i + 1];
      if Falsy(Get(s, here)) then SetFrom(Written(s, here, Object), parts, i + 1, val)
      else if Get(s, here) == Some(Object) then SetFrom(s, parts, i + 1, val)
      else None
  }

  function Set(s: Store, parts: Path, val: Plain): Option<Store>
    requires parts != []
  {
    SetFrom(s, parts, 0, val)
  }

  function GetByPathOf(s: Store, parts: Path, dflt: Plain): Plain {
    match Get(s, parts)
    case None => dflt
    case Some(Null) => dflt
    case Some(v) => v
  }

  // ---- lens laws ----

  predicate Related(p: Path, q: Path) { p <= q || q <= p }

  /** Some value on the way to the last part is neither an object nor falsy. */
  ghost predicate Blocked(s: Store, parts: Path, i: nat) {
    exists j :: i < j < |parts| && !Falsy(Get(s, parts[..j])) && Get(s, parts[..j]) != Some(Object)
  }

  /** What path q shows once parts has been set. */
  function Afterwards(s: Store, parts: Path, val: Plain, q: Path): Option<Plain> {
    if q == parts then Some(val)
    else if parts <= q then None
    else if q <= parts then Some(Object)
    else Get(s, q)
  }

  lemma {:induction false} AboveIsObject(s: Store, q: Path, j: nat)
    requires Tree(s) && q in s && j < |q|
    ensures Get(s, q[..j]) == Some(Object)
  {
    var parent := q[..|q| - 1];
    assert InObject(s, q);
    if j < |parent| {
      AboveIsObject(s, parent, j);
      assert parent[..j] == q[..j];
    }
  }

  /** Writing a field of an object keeps the tree a tree. */
  lemma {:induction false} WrittenIsTree(s: Store, p: Path, key: string, v: Plain)
    requires Tree(s) && Get(s, p) == Some(Object)
    ensures Tree(Written(s, p + [key], v))
  {
    var target, t := p + [key], Written(s, p + [key], v);
    assert target[..|target| - 1] == p;
    forall q ensures InObject(t, q) {
      if q in t && q != [] && q != target {
        assert InObject(s, q);
        assert q[..|q| - 1] <= q;
      }
    }
  }

  lemma {:induction false} NothingBelow(s: Store, p: Path, q: Path)
    requires Tree(s) && Get(s, p) != Some(Object) && p <= q && p != q
    ensures Get(s, q) == None
  {
    assert q[..|p|] == p;
    if q in s {
      AboveIsObject(s, q, |p|);
    }
  }

  ghost predicate Shaped(r: Option<Store>, s: Store, parts: Path, i: nat, val: Plain) {
    && (r.None? <==> Blocked(s, parts, i))
    && (r.Some? ==> Tree(r.value) && forall q :: Get(r.value, q) == Afterwards(s, parts, val, q))
  }

  /** Everything setByPath leaves, for every path at once, and exactly when it throws. */
  lemma {:induction false} SetFromShape(s: Store, parts: Path, i: nat, val: Plain)
    requires i < |parts| && Tree(s) && Get(s, parts[..i]) == Some(Object)
    ensures Shaped(SetFrom(s, parts, i, val), s, parts, i, val)
    decreases |parts| - i
  {
    if i == |parts| - 1 {
      SetLastShape(s, parts, val);
    } else if Falsy(Get(s, parts[..i + 1])) {
      NewObjectShape(s, parts, i, val);
      SetFromShape(Written(s, parts[..i + 1], Object), parts, i + 1, val);
    } else if Get(s, parts[..i + 1]) == Some(Object) {
      SetFromShape(s, parts, i + 1, val);
      NotBlockedHere(s, parts, i);
    }
  }

  lemma {:induction false} NotBlockedHere(s: Store, parts: Path, i: nat)
    requires i + 1 < |parts| && Get(s, parts[..i + 1]) == Some(Object)
    ensures Blocked(s, parts, i) <==> Blocked(s, parts, i + 1)
  {
  }

  lemma {:induction false} SetLastShape(s: Store, parts: Path, val: Plain)
    requires parts != [] && Tree(s) && Get(s, parts[..|parts| - 1]) == Some(Object)
    ensures var t := Written(s, parts, val); Tree(t) && forall q :: Get(t, q) == Afterwards(s, parts, val, q)
  {
    var i := |parts| - 1;
    assert parts == parts[..i] + [parts[i]];
    WrittenIsTree(s, parts[..i], parts[i], val);
    forall q ensures Get(Written(s, parts, val), q) == Afterwards(s, parts, val, q) {
      if q <= parts && q != parts {
        SameAbove(s, parts, i, q);
      }
    }
  }

  lemma {:induction false} NewObjectShape(s: Store, parts: Path, i: nat, val: Plain)
    requires i + 1 < |parts| && Tree(s) && Get(s, parts[..i]) == Some(Object) && Falsy(Get(s, parts[..i + 1]))
    ensures var t := Written(s, parts[..i + 1], Object);
            && Tree(t) && Get(t, parts[..i + 1]) == Some(Object)
            && !Blocked(s, parts, i) && !Blocked(t, parts, i + 1)
            && forall q :: Afterwards(t, parts, val, q) == Afterwards(s, parts, val, q)
  {
    var here := parts[..i + 1];
    assert here == parts[..i] + [parts[i]];
    WrittenIsTree(s, parts[..i], parts[i], Object);
    BelowFalsy(s, parts, i);
    forall q ensures Afterwards(Written(s, here, Object), parts, val, q) == Afterwards(s, parts, val, q) {
      if here <= q && q != here {
        NothingBelow(s, here, q);
      }
    }
  }

  lemma {:induction false} SameAbove(s: Store, parts: Path, i: nat, q: Path)
    requires Tree(s) && i < |parts| && Get(s, parts[..i]) == Some(Object) && q <= parts && |q| <= i
    ensures Get(s, q) == Some(Object)
  {
    if |q| < i {
      AboveIsObject(s, parts[..i], |q|);
      assert parts[..i][..|q|] == q;
    } else {
      assert q == parts[..i];
    }
  }

  lemma {:induction false} BelowFalsy(s: Store, parts: Path, i: nat)
    requires i + 1 < |parts| && Tree(s) && Falsy(Get(s, parts[..i + 1]))
    ensures !Blocked(s, parts, i)
    ensures !Blocked(Written(s, parts[..i + 1], Object), parts, i + 1)
  {
    forall j | i < j < |parts| ensures Falsy(Get(s, parts[..j])) {
      if j > i + 1 {
        NothingBelow(s, parts[..i + 1], parts[..j]);
      }
    }
    forall j | i + 1 < j < |parts| ensures Falsy(Get(Written(s, parts[..i + 1], Object), parts[..j])) {
      assert parts[..i + 1] <= parts[..j];
    }
  }

  /** The lens laws at once: it throws exactly when a value on the way is neither falsy nor an object; else
      the path shows the value with nothing under it, the paths to it are objects, and every other path
      shows what it did. */
  lemma {:induction false} SetShape(s: Store, parts: Path, val: Plain)
    requires parts != [] && Tree(s)
    ensures var r := Set(s, parts, val);
            && (r.None? <==> Blocked(s, parts, 0))
            && (r.Some? ==> Tree(r.value) && forall q :: Get(r.value, q) == Afterwards(s, parts, val, q))
  {
    assert parts[..0] == [];
    SetFromShape(s, parts, 0, val);
  }

  /** Setting throws exactly when some value on the way is a true flag, a number other than 0 or a text that is
      not empty. */
  lemma {:induction false} ThrowsIff(s: Store, parts: Path, val: Plain)
    requires parts != [] && Tree(s)
    ensures Set(s, parts, val).None? <==>
            exists j :: 0 < j < |parts| && parts[..j] in s &&
              match s[parts[..j]]
              case Flag(b) => b
              case Number(r) => r != 0.0
              case Text(x) => x != ""
              case _ => false
  {
    SetShape(s, parts, val);
  }

  lemma {:induction false} SameStore(s: Store, t: Store)
    requires forall q :: Get(s, q) == Get(t, q)
    ensures s == t
  {
    forall q ensures q in s <==> q in t {
      assert Get(s, q) == Get(t, q);
    }
    forall q | q in s ensures s[q] == t[q] {
      assert Get(s, q) == Get(t, q);
    }
  }

  /** Setting a path twice is setting it the second time. */
  lemma {:induction false} SetTwice(s: Store, parts: Path, v: Plain, w: Plain)
    requires parts != [] && Tree(s) && Set(s, parts, v).Some?
    ensures Set(Set(s, parts, v).value, parts, w) == Set(s, parts, w)
  {
    SetShape(s, parts, v);
    SetShape(s, parts, w);
    var t := Set(s, parts, v).value;
    SetShape(t, parts, w);
    forall j | 0 < j < |parts| ensures Get(t, parts[..j]) == Some(Object) {
      assert Get(t, parts[..j]) == Afterwards(s, parts, v, parts[..j]);
    }
    forall q ensures Get(Set(t, parts, w).value, q) == Get(Set(s, parts, w).value, q) {
    }
    SameStore(Set(t, parts, w).value, Set(s, parts, w).value);
  }

  /** Setting a path to the plain value it has changes nothing. */
  lemma {:induction false} SetSame(s: Store, parts: Path, v: Plain)
    requires parts != [] && Tree(s) && v != Object && Get(s, parts) == Some(v)
    ensures Set(s, parts, v) == Some(s)
  {
    SetShape(s, parts, v);
    forall j | 0 < j < |parts| ensures Get(s, parts[..j]) == Some(Object) {
      AboveIsObject(s, parts, j);
    }
    forall q ensures Afterwards(s, parts, v, q) == Get(s, q) {
      if parts <= q && q != parts {
        NothingBelow(s, parts, q);
      } else if q <= parts && q != parts {
        AboveIsObject(s, parts, |q|);
        assert q == parts[..|q|];
      }
    }
    SameStore(Set(s, parts, v).value, s);
  }

  /** Unrelated paths are set in either order. */
  lemma {:induction false} SetsCommute(s: Store, p: Path, v: Plain, q: Path, w: Plain)
    requires p != [] && q != [] && !Related(p, q) && Tree(s)
    requires Set(s, p, v).Some? && Set(s, q, w).Some?
    ensures Set(Set(s, p, v).value, q, w).Some?
    ensures Set(Set(s, p, v).value, q, w) == Set(Set(s, q, w).value, p, v)
  {
    SetShape(s, p, v);
    SetShape(s, q, w);
    var sp, sq := Set(s, p, v).value, Set(s, q, w).value;
    NotBlockedBy(s, p, v, q);
    NotBlockedBy(s, q, w, p);
    SetShape(sp, q, w);
    SetShape(sq, p, v);
    forall r ensures Get(Set(sp, q, w).value, r) == Get(Set(sq, p, v).value, r) {
      assert Get(sp, r) == Afterwards(s, p, v, r);
      assert Get(sq, r) == Afterwards(s, q, w, r);
      NotBothAbove(p, q, r);
    }
    SameStore(Set(sp, q, w).value, Set(sq, p, v).value);
  }

  lemma {:induction false} NotBothAbove(p: Path, q: Path, r: Path)
    requires !Related(p, q)
    ensures !(p <= r && q <= r)
    ensures p <= r ==> !(r <= q)
    ensures q <= r ==> !(r <= p)
  {
  }

  lemma {:induction false} NotBlockedBy(s: Store, p: Path, v: Plain, q: Path)
    requires p != [] && !Related(p, q) && Tree(s) && Set(s, p, v).Some? && !Blocked(s, q, 0)
    ensures !Blocked(Set(s, p, v).value, q, 0)
  {
    SetShape(s, p, v);
    var t := Set(s, p, v).value;
    forall j | 0 < j < |q| ensures Falsy(Get(t, q[..j])) || Get(t, q[..j]) == Some(Object) {
      assert Get(t, q[..j]) == Afterwards(s, p, v, q[..j]);
      NotBothAbove(p, q, q);
    }
  }

  // ---- the same tree on the heap, written in place ----

  datatype Value = Leaf(v: Plain) | Obj(node: Node)

  class Node {
    var fields: map<string, Value>

    constructor ()
      ensures fields == map[]
    {
      fields := map[];
    }
  }

  function PlainOf(v: Option<Value>): Option<Plain> {
    match v
    case None => None
    case Some(Leaf(p)) => Some(p)
    case Some(Obj(_)) => Some(Object)
  }

  type Heap = map<Node, map<string, Value>>

  /** The value found by walking the objects along q. */
  ghost function Walk(h: Heap, root: Node, q: Path): Option<Value> {
    if q == [] then Some(Obj(root)) else
    var up := Walk(h, root, q[..|q| - 1]);
    var k := q[|q| - 1];
    if up.Some? && up.value.Obj? && up.value.node in h && k in h[up.value.node]
    then Some(h[up.value.node][k]) else None
  }

  /** Each object is reached by its own path only, and no plain value poses as an object. */
  ghost predicate Alone(h: Heap, root: Node, home: map<Node, Path>) {
    && h.Keys == home.Keys
    && forall q {:trigger At1(Walk(h, root, q), home, q)} :: At1(Walk(h, root, q), home, q)
  }

  ghost predicate At1(v: Option<Value>, home: map<Node, Path>, q: Path) {
    && v != Some(Leaf(Object))
    && (v.Some? && v.value.Obj? ==> v.value.node in home && home[v.value.node] == q)
  }

  ghost function WithField(h: Heap, node: Node, key: string, v: Value): Heap
    requires node in h
  {
    var t := h[node := h[node][key := v]];
    if v.Obj? then t[v.node := map[]] else t
  }

  lemma {:induction false} EmptyShows(h: Heap, root: Node, q: Path)
    requires root in h && h[root] == map[]
    ensures Walk(h, root, q) == if q == [] then Some(Obj(root)) else None
  {
    if q != [] {
      EmptyShows(h, root, q[..|q| - 1]);
    }
  }

  lemma {:induction false} OneFurther(target: Path, up: Path, k: string)
    ensures target <= up + [k] && target != up + [k] ==> target <= up
    ensures target <= up ==> target <= up + [k]
  {
  }

  /** What one assignment to a field of one object does to every path. */
  lemma {:induction false} AfterWrite(h: Heap, root: Node, home: map<Node, Path>, p: Path, node: Node, key: string,
                                      v: Value, q: Path)
    requires Alone(h, root, home) && node in h && Walk(h, root, p) == Some(Obj(node))
    requires v.Obj? ==> v.node !in h
    ensures Walk(WithField(h, node, key, v), root, q) ==
            if q == p + [key] then Some(v) else if p + [key] <= q then None else Walk(h, root, q)
  {
    if q != [] {
      var up, k := q[..|q| - 1], q[|q| - 1];
      assert q == up + [k];
      AfterWrite(h, root, home, p, node, key, v, up);
      OneFurther(p + [key], up, k);
      assert At1(Walk(h, root, up), home, up);
      assert At1(Walk(h, root, p), home, p);
      WalkStep(h, root, up, k);
      WalkStep(WithField(h, node, key, v), root, up, k);
      hide Walk, Alone;
      FieldAfter(h, node, key, v, Walk(h, root, up), k);
    }
  }

  /** A field of the value found along p. */
  ghost function Below(h: Heap, up: Option<Value>, k: string): Option<Value> {
    if up.Some? && up.value.Obj? && up.value.node in h && k in h[up.value.node]
    then Some(h[up.value.node][k]) else None
  }

  lemma {:induction false} WalkStep(h: Heap, root: Node, up: Path, k: string)
    ensures Walk(h, root, up + [k]) == Below(h, Walk(h, root, up), k)
  {
    assert (up + [k])[..|up|] == up;
  }

  /** A write changes one field of one object, and a new object has none. */
  lemma {:induction false} FieldAfter(h: Heap, node: Node, key: string, v: Value, up: Option<Value>, k: string)
    requires node in h && (v.Obj? ==> v.node !in h)
    ensures up == Some(Obj(node)) ==>
              Below(WithField(h, node, key, v), up, k) == if k == key then Some(v) else Below(h, up, k)
    ensures up == Some(v) ==> Below(WithField(h, node, key, v), up, k) == None
    ensures up != Some(Obj(node)) && up != Some(v) ==> Below(WithField(h, node, key, v), up, k) == Below(h, up, k)
  {
  }

  lemma {:induction false} WriteShows(h: Heap, root: Node, home: map<Node, Path>, p: Path, node: Node, key: string, v: Value)
    requires Alone(h, root, home) && node in h && Walk(h, root, p) == Some(Obj(node))
    requires v != Leaf(Object) && (v.Obj? ==> v.node !in h)
    ensures var t := WithField(h, node, key, v);
            && Alone(t, root, if v.Obj? then home[v.node := p + [key]] else home)
            && forall q :: Walk(t, root, q) ==
                 if q == p + [key] then Some(v) else if p + [key] <= q then None else Walk(h, root, q)
  {
    var t := WithField(h, node, key, v);
    forall q ensures Walk(t, root, q) ==
                     if q == p + [key] then Some(v) else if p + [key] <= q then None else Walk(h, root, q)
    {
      AfterWrite(h, root, home, p, node, key, v, q);
    }
    forall q ensures At1(Walk(t, root, q), if v.Obj? then home[v.node := p + [key]] else home, q) {
      assert At1(Walk(h, root, q), home, q);
    }
  }

  /** The objects form a tree, and view is what its paths show. */
  ghost predicate Mirrors(h: Heap, root: Node, home: map<Node, Path>, view: Store) {
    && Alone(h, root, home)
    && Reflects(h, root, view)
    && Tree(view)
  }

  ghost predicate Reflects(h: Heap, root: Node, view: Store) {
    forall q {:trigger Get(view, q)} :: Get(view, q) == PlainOf(Walk(h, root, q))
  }

  lemma {:induction false} ReflectsAfter(h: Heap, t: Heap, root: Node, view: Store, target: Path, v: Value)
    requires Reflects(h, root, view)
    requires forall q :: Walk(t, root, q) ==
               if q == target then Some(v) else if target <= q then None else Walk(h, root, q)
    ensures Reflects(t, root, Written(view, target, PlainOf(Some(v)).value))
  {
    forall q ensures Get(Written(view, target, PlainOf(Some(v)).value), q) == PlainOf(Walk(t, root, q)) {
      assert Get(view, q) == PlainOf(Walk(h, root, q));
    }
  }

  lemma {:induction false} WriteMirrors(h: Heap, root: Node, home: map<Node, Path>, view: Store, p: Path, node: Node, key: string,
                     v: Value)
    requires Mirrors(h, root, home, view) && node in h && Walk(h, root, p) == Some(Obj(node))
    requires v != Leaf(Object) && (v.Obj? ==> v.node !in h)
    ensures Mirrors(WithField(h, node, key, v), root, if v.Obj? then home[v.node := p + [key]] else home,
                    Written(view, p + [key], PlainOf(Some(v)).value))
    ensures Walk(WithField(h, node, key, v), root, p + [key]) == Some(v)
  {
    WriteShows(h, root, home, p, node, key, v);
    assert Get(view, p) == PlainOf(Walk(h, root, p));
    WrittenIsTree(view, p, key, PlainOf(Some(v)).value);
    ReflectsAfter(h, WithField(h, node, key, v), root, view, p + [key], v);
  }

  lemma {:induction false} WalkFurther(h: Heap, root: Node, p: Path, node: Node, key: string)
    requires Walk(h, root, p) == Some(Obj(node)) && node in h
    ensures Walk(h, root, p + [key]) == FieldOf(h, node, key)
  {
    assert (p + [key])[..|p + [key]| - 1] == p;
  }

  function FieldOf(h: Heap, node: Node, key: string): Option<Value>
    requires node in h
  {
    if key in h[node] then Some(h[node][key]) else None
  }

  lemma {:induction false} Known(h: Heap, root: Node, home: map<Node, Path>, view: Store, q: Path)
    requires Mirrors(h, root, home, view)
    ensures At1(Walk(h, root, q), home, q) && Get(view, q) == PlainOf(Walk(h, root, q))
  {
  }

  /** What a field of an object on a path says about the path one longer. */
  lemma {:induction false} FieldShows(h: Heap, root: Node, home: map<Node, Path>, view: Store, p: Path, node: Node, key: string)
    requires Mirrors(h, root, home, view) && Walk(h, root, p) == Some(Obj(node))
    ensures node in h && Get(view, p) == Some(Object)
    ensures var child := FieldOf(h, node, key);
            && Walk(h, root, p + [key]) == child
            && Get(view, p + [key]) == PlainOf(child)
            && At1(child, home, p + [key])
  {
    Known(h, root, home, view, p);
    WalkFurther(h, root, p, node, key);
    Known(h, root, home, view, p + [key]);
  }

  /** Nothing stands below the first i parts. */
  ghost predicate Bare(s: Store, parts: Path, i: nat) {
    forall j :: i < j <= |parts| ==> Get(s, parts[..j]) == None
  }

  lemma {:induction false} NothingUnder(s: Store, parts: Path, i: nat)
    requires i < |parts|
    ensures Bare(Written(s, parts[..i + 1], Object), parts, i + 1)
  {
    forall j | i + 1 < j <= |parts| ensures Get(Written(s, parts[..i + 1], Object), parts[..j]) == None {
      assert parts[..i + 1] <= parts[..j];
    }
  }

  /** The walk has come i parts far without changing what setting the path will give. */
  ghost predicate Underway(was: Store, s: Store, parts: Path, i: nat, val: Plain)
    requires i < |parts|
  {
    SetFrom(s, parts, i, val) == Set(was, parts, val) && (s == was || Bare(s, parts, i))
  }

  /** One round of the walk, by what the next field holds. */
  lemma {:induction false} OneRound(was: Store, s: Store, parts: Path, i: nat, val: Plain)
    requires i + 1 < |parts| && Underway(was, s, parts, i, val)
    ensures parts[..i + 1] == parts[..i] + [parts[i]]
    ensures var child := Get(s, parts[..i] + [parts[i]]);
            if Falsy(child) then Underway(was, Written(s, parts[..i] + [parts[i]], Object), parts, i + 1, val)
            else if child == Some(Object) then Underway(was, s, parts, i + 1, val)
            else s == was && Set(was, parts, val) == None
  {
    assert parts[..i + 1] == parts[..i] + [parts[i]];
    NothingUnder(s, parts, i);
    assert Bare(s, parts, i) ==> Get(s, parts[..i + 1]) == None;
  }

  class Config {
    const root: Node
    ghost var home: map<Node, Path>     // the objects, each with its one path
    ghost var view: Store               // what each path shows

    /** The fields of every object. */
    ghost function Fields(): Heap
      reads this, home.Keys
    {
      map n | n in home.Keys :: n.fields
    }

    ghost function At(q: Path): Option<Value>
      reads this, home.Keys
    {
      Walk(Fields(), root, q)
    }

    /** The objects form a tree, and view is what its paths show. */
    ghost predicate Valid()
      reads this, home.Keys
    {
      Mirrors(Fields(), root, home, view)
    }

    /** An empty configuration. */
    constructor ()
      ensures Valid() && fresh(root) && fresh(home.Keys)
      ensures view == map[[] := Object]
    {
      root := new Node();
      home := map[root := []];
      view := map[[] := Object];
      new;
      forall q ensures At(q) == if q == [] then Some(Obj(root)) else None {
        EmptyShows(Fields(), root, q);
      }
    }

    /** node[key] = v, for a plain value or a new empty object. */
    method Put(ghost p: Path, node: Node, key: string, v: Value)
      requires Valid() && At(p) == Some(Obj(node)) && v != Leaf(Object)
      requires v.Obj? ==> v.node !in home && v.node.fields == map[]
      modifies this, node
      ensures Valid()
      ensures view == Written(old(view), p + [key], PlainOf(Some(v)).value)
      ensures home.Keys == old(home.Keys) + if v.Obj? then {v.node} else {}
      ensures At(p + [key]) == Some(v)
    {
      ghost var before := Fields();
      Known(before, root, home, view, p);
      node.fields := node.fields[key := v];
      ghost var target := p + [key];
      if v.Obj? {
        home := home[v.node := target];
      }
      view := Written(view, target, PlainOf(Some(v)).value);
      assert Fields() == WithField(before, node, key, v);
      WriteMirrors(before, root, old(home), old(view), p, node, key, v);
    }

    /** The object in a field, made first where the field is falsy; None where the field holds a value
        that is neither. */
    method Descend(ghost p: Path, node: Node, key: string) returns (next: Option<Node>)
      requires Valid() && At(p) == Some(Obj(node))
      modifies this, node
      ensures Valid() && old(home.Keys) <= home.Keys && fresh(home.Keys - old(home.Keys))
      ensures var was := Get(old(view), p + [key]);
              && view == (if Falsy(was) then Written(old(view), p + [key], Object) else old(view))
              && (next.Some? <==> Falsy(was) || was == Some(Object))
      ensures next.Some? ==> At(p + [key]) == Some(Obj(next.value)) && next.value in home
    {
      FieldShows(Fields(), root, home, view, p, node, key);
      var child := if key in node.fields then Some(node.fields[key]) else None;
      if Falsy(PlainOf(child)) {
        var n := new Node();
        Put(p, node, key, Obj(n));
        return Some(n);
      }
      next := if child.value.Obj? then Some(child.value.node) else None;
    }

    /** The walk to the object that holds the last part. */
    method Reach(parts: Path, ghost val: Plain) returns (last: Option<Node>)
      requires Valid() && parts != []
      modifies this, home.Keys
      ensures Valid() && old(home.Keys) <= home.Keys && fresh(home.Keys - old(home.Keys))
      ensures last.None? ==> Set(old(view), parts, val) == None && view == old(view)
      ensures last.Some? ==> Set(old(view), parts, val) == Some(Written(view, parts, val))
      ensures last.Some? ==> At(parts[..|parts| - 1]) == Some(Obj(last.value)) && last.value in home
    {
      var node := root;
      ghost var was := view;
      assert parts[..0] == [];
      Known(Fields(), root, home, view, []);
      for i := 0 to |parts| - 1
        invariant Valid() && old(home.Keys) <= home.Keys && fresh(home.Keys - old(home.Keys))
        invariant At(parts[..i]) == Some(Obj(node)) && node in home
        invariant Underway(was, view, parts, i, val)
      {
        OneRound(was, view, parts, i, val);
        var next := Descend(parts[..i], node, parts[i]);
        if next.None? {
          return None;
        }
        node := next.value;
      }
      last := Some(node);
    }

    method SetByPath(parts: Path, val: Plain) returns (ok: bool)
      requires Valid() && parts != [] && val != Object
      modifies this, home.Keys
      ensures Valid() && fresh(home.Keys - old(home.Keys))
      ensures ok <==> Set(old(view), parts, val).Some?
      ensures view == if ok then Set(old(view), parts, val).value else old(view)
    {
      var last := Reach(parts, val);
      if last.None? {
        return false;
      }
      assert parts == parts[..|parts| - 1] + [parts[|parts| - 1]];
      Put(parts[..|parts| - 1], last.value, parts[|parts| - 1], Leaf(val));
      ok := true;
    }

    method GetByPath(parts: Path, dflt: Plain) returns (r: Plain)
      requires Valid()
      ensures r == if parts !in view || view[parts] == Null then dflt else view[parts]
    {
      var node: Option<Value> := Some(Obj(root));
      assert parts[..0] == [];
      for i := 0 to |parts|
        invariant node == At(parts[..i])
      {
        var here := parts[..i + 1];
        assert here[..|here| - 1] == parts[..i];
        Known(Fields(), root, home, view, parts[..i]);
        if node.None? || node.value == Leaf(Null) {
          NoneBeyond(parts, i);
          return dflt;
        }
        node := if node.value.Obj? && parts[i] in node.value.node.fields
                then Some(node.value.node.fields[parts[i]]) else None;
      }
      assert parts[..|parts|] == parts;
      assert Get(view, parts) == PlainOf(At(parts));
      r := if node.None? || node.value == Leaf(Null) then dflt else PlainOf(node).value;
    }

    lemma {:induction false} NoneBeyond(parts: Path, i: nat)
      requires Valid() && i < |parts|
      requires At(parts[..i]).None? || At(parts[..i]).value == Leaf(Null)
      ensures Get(view, parts) == None
    {
      assert Get(view, parts[..i]) == PlainOf(At(parts[..i]));
      NothingBelow(view, parts[..i], parts);
    }
  }
}
