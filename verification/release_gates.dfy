/** scripts/check-native-release-order.py and check-native-schema.py: what may be published next, and what
    that makes of every publication history. A tag's rank stands for the tag; a release whose tag is not a
    native one has none. */
module ReleaseGates {
  import opened Wrappers

  datatype Rank = Rank(minor: nat, patch: nat, stable: bool, beta: nat)

  /** Python's tuple order: a stable is above the betas of its version. */
  predicate Below(a: Rank, b: Rank) {
    || a.minor < b.minor
    || (a.minor == b.minor
        && (|| a.patch < b.patch
            || (a.patch == b.patch
                && (|| (!a.stable && b.stable)
                    || (a.stable == b.stable && a.beta < b.beta)))))
  }

  function Beta(minor: nat, patch: nat, b: nat): Rank { Rank(minor, patch, false, b) }

  function Stable(minor: nat, patch: nat): Rank { Rank(minor, patch, true, 0) }

  /** The order, by neighbours: a beta stands below the next and below the stable of its version, a stable
      below every release of the next patch, and every release of a minor below all of the next. */
  lemma {:induction false} VersionOrder(minor: nat, patch: nat, b: nat, stable: bool, other: Rank, next: Rank)
    requires other.minor == minor && next.minor == minor + 1
    ensures Below(Beta(minor, patch, b), Beta(minor, patch, b + 1))
    ensures Below(Beta(minor, patch, b), Stable(minor, patch))
    ensures Below(Stable(minor, patch), Rank(minor, patch + 1, stable, b))
    ensures Below(other, next)
  {
  }

  /** Of two ranks exactly one is below, unless they are equal, and below a lower one is below. */
  lemma {:induction false} BelowIsAnOrder(a: Rank, b: Rank, c: Rank)
    ensures Below(a, b) && Below(b, c) ==> Below(a, c)
    ensures a == b || Below(a, b) || Below(b, a)
    ensures !(Below(a, b) && Below(b, a)) && !Below(a, a)
  {
  }

  /** A listed release; valid means an object with a text tag. The marker is the schema its notes name. */
  datatype Release = Release(valid: bool, rank: Option<Rank>, draft: bool, marker: Option<nat>)

  type Pages = seq<seq<Release>>

  datatype Refusal = NotNative | BadSchema | BadEntry | Older | SchemaChanged

  type Verdict = Result<(), Refusal>

  function Flatten(pages: Pages): seq<Release> {
    if pages == [] then [] else pages[0] + Flatten(pages[1..])
  }

  // ---- check-native-release-order.py ----

  /** A published release stands above the target: any above a beta, a stable one above a stable. */
  predicate Blocks(r: Release, target: Rank) {
    !r.draft && r.rank.Some? && Below(target, r.rank.value) && (r.rank.value.stable || !target.stable)
  }

  function OrderPage(target: Rank, page: seq<Release>): Verdict {
    if page == [] then Ok(())
    else if !page[0].valid then Err(BadEntry)
    else if Blocks(page[0], target) then Err(Older)
    else OrderPage(target, page[1..])
  }

  function OrderPages(target: Rank, pages: Pages): Verdict {
    if pages == [] then Ok(()) else
    match OrderPage(target, pages[0])
    case Err(e) => Err(e)
    case Ok(_) => OrderPages(target, pages[1..])
  }

  function CheckOrder(tag: Option<Rank>, pages: Pages): Verdict {
    if tag.None? || tag.value.minor < 131 then Err(NotNative) else OrderPages(tag.value, pages)
  }

  ghost predicate OrderAllows(target: Rank, listed: seq<Release>) {
    forall r :: r in listed ==> r.valid && !Blocks(r, target)
  }

  lemma {:induction false} OrderPageAllows(target: Rank, page: seq<Release>)
    ensures OrderPage(target, page).Ok? <==> OrderAllows(target, page)
  {
    if page != [] {
      OrderPageAllows(target, page[1..]);
      assert page == [page[0]] + page[1..];
    }
  }

  lemma {:induction false} OrderPagesAllow(target: Rank, pages: Pages)
    ensures OrderPages(target, pages).Ok? <==> OrderAllows(target, Flatten(pages))
  {
    if pages != [] {
      OrderPageAllows(target, pages[0]);
      OrderPagesAllow(target, pages[1..]);
    }
  }

  /** The order gate's verdict does not depend on pages or their order. */
  lemma {:induction false} OrderIgnoresPaging(tag: Option<Rank>, a: Pages, b: Pages)
    requires forall r :: r in Flatten(a) <==> r in Flatten(b)
    ensures CheckOrder(tag, a).Ok? == CheckOrder(tag, b).Ok?
  {
    if tag.Some? {
      OrderPagesAllow(tag.value, a);
      OrderPagesAllow(tag.value, b);
    }
  }

  /** The version is older: its minor, or with one minor its patch. */
  predicate OlderVersion(p: Rank, q: Rank) {
    p.minor < q.minor || (p.minor == q.minor && p.patch < q.patch)
  }

  /** One published release q lets the tag of rank p through: a beta from q's own number on in q's version and
      in no older one, or if q is stable in newer ones only; a stable whenever q is a beta, or in no older
      version. */
  predicate LetsThrough(q: Rank, p: Rank) {
    if p.stable then (q.stable ==> !OlderVersion(p, q) && !(p.minor == q.minor && p.patch == q.patch && p.beta < q.beta))
    else if q.stable then OlderVersion(q, p)
    else !OlderVersion(p, q) && (p.minor == q.minor && p.patch == q.patch ==> p.beta >= q.beta)
  }

  /** The whole order gate, one published release at a time. */
  lemma {:induction false} OrderGate(tag: Option<Rank>, pages: Pages)
    ensures CheckOrder(tag, pages).Ok? <==>
            && tag.Some? && tag.value.minor >= 131
            && forall r :: r in Flatten(pages) ==>
                 r.valid && (r.draft || r.rank.None? || LetsThrough(r.rank.value, tag.value))
  {
    if tag.Some? {
      OrderPagesAllow(tag.value, pages);
      forall r: Release
        ensures !Blocks(r, tag.value) <==> (r.draft || r.rank.None? || LetsThrough(r.rank.value, tag.value))
      {
      }
    }
  }

  /** With only beta b of a version published, beta c of it passes if and only if c is b or newer. */
  lemma {:induction false} BetaAfterBeta(minor: nat, patch: nat, b: nat, c: nat, marker: Option<nat>)
    requires minor >= 131
    ensures CheckOrder(Some(Beta(minor, patch, c)), [[Release(true, Some(Beta(minor, patch, b)), false, marker)]]).Ok? <==> c >= b
  {
    var listed := [Release(true, Some(Beta(minor, patch, b)), false, marker)];
    OrderGate(Some(Beta(minor, patch, c)), [listed]);
    FlattenOne(listed);
  }

  // ---- check-native-schema.py ----

  datatype Marked = Marked(rank: Rank, schema: nat)

  /** The release counts for the schema: published, marked and below the target. */
  predicate Counts(r: Release, target: Rank) {
    !r.draft && r.rank.Some? && Below(r.rank.value, target) && r.marker.Some?
  }

  function Better(previous: Option<Marked>, r: Release, target: Rank): Option<Marked> {
    if Counts(r, target) && (previous.None? || Below(previous.value.rank, r.rank.value))
    then Some(Marked(r.rank.value, r.marker.value)) else previous
  }

  /** The running maximum over a list: the highest counted release, the first of equals. */
  function Highest(listed: seq<Release>, target: Rank): Option<Marked> {
    if listed == [] then None else Better(Highest(listed[..|listed| - 1], target), listed[|listed| - 1], target)
  }

  lemma {:induction false} HighestGrows(listed: seq<Release>, r: Release, target: Rank)
    ensures Highest(listed + [r], target) == Better(Highest(listed, target), r, target)
  {
    assert (listed + [r])[..|listed|] == listed;
  }

  /** The highest published marked release below the tag, if any, has the schema. */
  ghost predicate SchemaAllows(tag: Option<Rank>, schema: int, listed: seq<Release>) {
    && tag.Some? && schema > 0 && (forall r :: r in listed ==> r.valid)
    && var previous := Highest(listed, tag.value); previous.Some? ==> previous.value.schema == schema
  }

  method CheckSchema(tag: Option<Rank>, schema: int, pages: Pages) returns (v: Verdict)
    ensures v.Ok? <==> SchemaAllows(tag, schema, Flatten(pages))
  {
    if tag.None? {
      return Err(NotNative);
    }
    if schema <= 0 {
      return Err(BadSchema);
    }
    var target := tag.value;
    var previous: Option<Marked> := None;
    ghost var seen: seq<Release> := [];
    for p := 0 to |pages|
      invariant seen == Flatten(pages[..p])
      invariant previous == Highest(seen, target)
      invariant forall r :: r in seen ==> r.valid
    {
      var page := pages[p];
      FlattenGrows(pages, p);
      for i := 0 to |page|
        invariant seen == Flatten(pages[..p]) + page[..i]
        invariant previous == Highest(seen, target)
        invariant forall r :: r in seen ==> r.valid
      {
        var r := page[i];
        if !r.valid {
          FlattenHas(pages, p, i);
          return Err(BadEntry);
        }
        HighestGrows(seen, r, target);
        assert page[..i + 1] == page[..i] + [r];
        assert Flatten(pages[..p]) + page[..i + 1] == seen + [r];
        seen := seen + [r];
        if !r.draft && r.rank.Some? && Below(r.rank.value, target) {
          if r.marker.Some? && (previous.None? || Below(previous.value.rank, r.rank.value)) {
            previous := Some(Marked(r.rank.value, r.marker.value));
          }
        }
      }
      assert page[..|page|] == page;
    }
    assert pages[..|pages|] == pages;
    if previous.Some? && previous.value.schema != schema {
      return Err(SchemaChanged);
    }
    return Ok(());
  }

  lemma {:induction false} FlattenConcat(a: Pages, b: Pages)
    ensures Flatten(a + b) == Flatten(a) + Flatten(b)
  {
    if a == [] {
      assert a + b == b;
    } else {
      assert (a + b)[1..] == a[1..] + b;
      FlattenConcat(a[1..], b);
    }
  }

  lemma {:induction false} FlattenOne(page: seq<Release>)
    ensures Flatten([page]) == page
  {
    var pages: Pages := [page];
    assert pages[1..] == [];
  }

  lemma {:induction false} FlattenGrows(pages: Pages, p: nat)
    requires p < |pages|
    ensures Flatten(pages[..p + 1]) == Flatten(pages[..p]) + pages[p]
  {
    assert pages[..p + 1] == pages[..p] + [pages[p]];
    FlattenConcat(pages[..p], [pages[p]]);
    FlattenOne(pages[p]);
  }

  lemma {:induction false} FlattenHas(pages: Pages, p: nat, i: nat)
    requires p < |pages| && i < |pages[p]|
    ensures pages[p][i] in Flatten(pages)
  {
    assert pages == pages[..p] + ([pages[p]] + pages[p + 1..]);
    FlattenConcat(pages[..p], [pages[p]] + pages[p + 1..]);
    FlattenConcat([pages[p]], pages[p + 1..]);
    FlattenOne(pages[p]);
  }

  ghost predicate IsHighest(m: Option<Marked>, listed: seq<Release>, target: Rank) {
    match m
    case None => forall r :: r in listed ==> !Counts(r, target)
    case Some(Marked(rank, schema)) =>
      && (exists r :: r in listed && Counts(r, target) && r.rank == Some(rank) && r.marker == Some(schema))
      && forall r :: r in listed && Counts(r, target) ==> !Below(rank, r.rank.value)
  }

  lemma {:induction false} BelowTransitive(a: Rank, b: Rank, c: Rank)
    requires !Below(a, b) && !Below(b, c)
    ensures !Below(a, c)
  {
  }

  /** The running maximum is the highest counted release of the list. */
  lemma {:induction false} HighestIsHighest(listed: seq<Release>, target: Rank)
    ensures IsHighest(Highest(listed, target), listed, target)
  {
    if listed != [] {
      var front, last := listed[..|listed| - 1], listed[|listed| - 1];
      HighestIsHighest(front, target);
      var before, after := Highest(front, target), Highest(listed, target);
      assert listed == front + [last];
      if after.Some? {
        if after != before {
          assert last in listed && Counts(last, target);
        } else {
          var r :| r in front && Counts(r, target) && r.rank == Some(after.value.rank)
                   && r.marker == Some(after.value.schema);
          assert r in listed;
        }
        forall r | r in listed && Counts(r, target) ensures !Below(after.value.rank, r.rank.value) {
          if r in front && after != before && before.Some? {
            BelowTransitive(after.value.rank, before.value.rank, r.rank.value);
          }
        }
      }
    }
  }

  /** The listed release is published, marked and below the target. */
  ghost predicate Speaks(listed: seq<Release>, i: nat, target: Rank)
    requires i < |listed|
  {
    !listed[i].draft && listed[i].rank.Some? && listed[i].marker.Some? && Below(listed[i].rank.value, target)
  }

  /** It speaks, none that speaks is above it, and none before it has its rank. */
  ghost predicate Decides(listed: seq<Release>, i: nat, target: Rank)
    requires i < |listed|
  {
    && Speaks(listed, i, target)
    && (forall j :: 0 <= j < |listed| && Speaks(listed, j, target) ==> !Below(listed[i].rank.value, listed[j].rank.value))
    && forall j :: 0 <= j < i && Speaks(listed, j, target) ==> listed[j].rank != listed[i].rank
  }

  lemma {:induction false} HighestDecides(listed: seq<Release>, target: Rank) returns (i: nat)
    requires Highest(listed, target).Some?
    ensures i < |listed| && Decides(listed, i, target) && listed[i].rank.Some? && listed[i].marker.Some?
    ensures Highest(listed, target) == Some(Marked(listed[i].rank.value, listed[i].marker.value))
  {
    HighestIsHighest(listed, target);
    var n := |listed| - 1;
    var front, last := listed[..n], listed[n];
    assert forall j :: 0 <= j < |listed| ==> listed[j] in listed;
    if Highest(listed, target) == Highest(front, target) {
      i := HighestDecides(front, target);
      assert forall j :: 0 <= j < n && Speaks(listed, j, target) ==> Speaks(front, j, target);
    } else {
      i := n;
      HighestIsHighest(front, target);
      assert forall j :: 0 <= j < n ==> front[j] == listed[j] && front[j] in front;
    }
  }

  lemma {:induction false} DecidesOnce(listed: seq<Release>, i: nat, j: nat, target: Rank)
    requires i < |listed| && j < |listed| && Decides(listed, i, target) && Decides(listed, j, target)
    ensures i == j
  {
    BelowIsAnOrder(listed[i].rank.value, listed[j].rank.value, listed[i].rank.value);
  }

  /** The whole schema gate: the release that decides, if there is one, names the schema. */
  lemma {:induction false} SchemaGate(tag: Option<Rank>, schema: int, listed: seq<Release>)
    ensures SchemaAllows(tag, schema, listed) <==>
            && tag.Some? && schema > 0 && (forall r :: r in listed ==> r.valid)
            && forall i :: 0 <= i < |listed| && Decides(listed, i, tag.value) ==> listed[i].marker == Some(schema)
  {
    hide Decides;
    if tag.Some? {
      var m := Highest(listed, tag.value);
      if m.Some? {
        var i := HighestDecides(listed, tag.value);
        forall j | 0 <= j < |listed| && Decides(listed, j, tag.value) ensures j == i {
          DecidesOnce(listed, i, j, tag.value);
        }
      } else {
        HighestIsHighest(listed, tag.value);
        forall j | 0 <= j < |listed| ensures !Decides(listed, j, tag.value) {
          NothingSpeaks(listed, j, tag.value);
        }
      }
    }
  }

  lemma {:induction false} NothingSpeaks(listed: seq<Release>, j: nat, target: Rank)
    requires j < |listed| && forall r :: r in listed ==> !Counts(r, target)
    ensures !Decides(listed, j, target)
  {
    assert listed[j] in listed;
  }

  /** The release counts, and none that counts is above it. */
  ghost predicate Tops(r: Release, listed: seq<Release>, target: Rank) {
    && r in listed && Counts(r, target)
    && forall q :: q in listed && Counts(q, target) ==> !Below(r.rank.value, q.rank.value)
  }

  /** The releases of the highest counted rank name one schema. Several can be listed: a tag's numbers may
      have leading zeros. */
  ghost predicate TopAgrees(listed: seq<Release>, target: Rank) {
    forall r, q :: Tops(r, listed, target) && Tops(q, listed, target) ==> r.marker == q.marker
  }

  lemma {:induction false} HighestTops(listed: seq<Release>, target: Rank)
    ensures var m := Highest(listed, target);
            m.Some? ==> exists r :: Tops(r, listed, target) && r.rank == Some(m.value.rank) && r.marker == Some(m.value.schema)
    ensures Highest(listed, target).None? ==> forall r :: !Tops(r, listed, target)
  {
    HighestIsHighest(listed, target);
    var m := Highest(listed, target);
    if m.Some? {
      var r :| r in listed && Counts(r, target) && r.rank == Some(m.value.rank) && r.marker == Some(m.value.schema);
      assert Tops(r, listed, target);
    }
  }

  lemma {:induction false} SameTops(r: Release, x: seq<Release>, y: seq<Release>, target: Rank)
    requires forall q :: q in x <==> q in y
    ensures Tops(r, x, target) <==> Tops(r, y, target)
  {
  }

  lemma {:induction false} TopsAreEqual(r: Release, q: Release, listed: seq<Release>, target: Rank)
    requires Tops(r, listed, target) && Tops(q, listed, target)
    ensures r.rank == q.rank
  {
    assert !Below(r.rank.value, q.rank.value) && !Below(q.rank.value, r.rank.value);
  }

  lemma {:induction false} SameHighest(target: Rank, x: seq<Release>, y: seq<Release>)
    requires forall r :: r in x <==> r in y
    requires TopAgrees(x, target)
    ensures Highest(x, target) == Highest(y, target)
  {
    hide Tops, Highest;
    HighestTops(x, target);
    HighestTops(y, target);
    var m, n := Highest(x, target), Highest(y, target);
    if m.Some? {
      var r :| Tops(r, x, target) && r.rank == Some(m.value.rank) && r.marker == Some(m.value.schema);
      SameTops(r, x, y, target);
      var q :| Tops(q, y, target) && q.rank == Some(n.value.rank) && q.marker == Some(n.value.schema);
      SameTops(q, x, y, target);
      TopsAreEqual(r, q, x, target);
    } else if n.Some? {
      var q :| Tops(q, y, target) && q.rank == Some(n.value.rank) && q.marker == Some(n.value.schema);
      SameTops(q, x, y, target);
    }
  }

  /** Where the releases of the highest counted rank name one schema, the schema gate's verdict does not
      depend on pages, their order or repetitions. */
  lemma {:induction false} SchemaIgnoresPaging(tag: Option<Rank>, schema: int, a: Pages, b: Pages)
    requires forall r :: r in Flatten(a) <==> r in Flatten(b)
    requires tag.Some? ==> TopAgrees(Flatten(a), tag.value)
    ensures SchemaAllows(tag, schema, Flatten(a)) == SchemaAllows(tag, schema, Flatten(b))
  {
    if tag.Some? {
      SameHighest(tag.value, Flatten(a), Flatten(b));
    }
  }

  /** The first of the highest wins. */
  lemma {:induction false} FirstTopWins(r: Release, rest: seq<Release>, target: Rank)
    requires Counts(r, target)
    requires forall q :: q in rest && Counts(q, target) ==> !Below(r.rank.value, q.rank.value)
    ensures Highest([r] + rest, target) == Some(Marked(r.rank.value, r.marker.value))
  {
    if rest == [] {
      assert [r] + rest == [] + [r];
      HighestGrows([], r, target);
    } else {
      var n := |rest| - 1;
      FirstTopWins(r, rest[..n], target);
      assert [r] + rest == ([r] + rest[..n]) + [rest[n]];
      HighestGrows([r] + rest[..n], rest[n], target);
    }
  }

  /** The list with one of its highest put first: then that one's schema decides. */
  lemma {:induction false} PutFirst(r: Release, listed: seq<Release>, target: Rank) returns (y: seq<Release>)
    requires Tops(r, listed, target)
    ensures multiset(y) == multiset(listed)
    ensures Highest(y, target) == Some(Marked(r.rank.value, r.marker.value))
  {
    var i :| 0 <= i < |listed| && listed[i] == r;
    var rest := listed[..i] + listed[i + 1..];
    y := [r] + rest;
    assert listed == listed[..i] + [r] + listed[i + 1..];
    forall q | q in rest ensures q in listed {}
    FirstTopWins(r, rest, target);
  }

  lemma {:induction false} SameMembers(x: seq<Release>, y: seq<Release>)
    requires multiset(x) == multiset(y)
    ensures forall r :: r in x <==> r in y
  {
    forall r ensures r in x <==> r in y {
      assert r in multiset(x) <==> r in multiset(y);
    }
  }

  /** For every schema the verdict is the same in every order of the list. */
  ghost predicate OrderFree(tag: Option<Rank>, a: Pages) {
    forall schema: int, b: Pages :: multiset(Flatten(a)) == multiset(Flatten(b)) ==>
      SchemaAllows(tag, schema, Flatten(a)) == SchemaAllows(tag, schema, Flatten(b))
  }

  /** The verdict is independent of order, exactly when the releases of the highest counted rank name one
      schema, or the gate refuses the tag or an entry anyway. */
  lemma {:induction false} OrderFreeIffTopAgrees(tag: Option<Rank>, a: Pages)
    ensures OrderFree(tag, a) <==>
            tag.None? || (exists r :: r in Flatten(a) && !r.valid) || TopAgrees(Flatten(a), tag.value)
  {
    hide Highest, Tops;
    var x := Flatten(a);
    if tag.None? || (exists r :: r in x && !r.valid) || TopAgrees(x, tag.value) {
      forall schema: int, b: Pages | multiset(x) == multiset(Flatten(b))
        ensures SchemaAllows(tag, schema, x) == SchemaAllows(tag, schema, Flatten(b))
      {
        SameMembers(x, Flatten(b));
        if tag.Some? && TopAgrees(x, tag.value) {
          SameHighest(tag.value, x, Flatten(b));
        }
      }
    } else {
      var r, q :| Tops(r, x, tag.value) && Tops(q, x, tag.value) && r.marker != q.marker;
      OrderShows(tag.value, a, r, q);
    }
  }

  lemma {:induction false} OrderFreeAt(tag: Option<Rank>, schema: int, a: Pages, b: Pages)
    requires multiset(Flatten(a)) == multiset(Flatten(b))
    ensures OrderFree(tag, a) ==> SchemaAllows(tag, schema, Flatten(a)) == SchemaAllows(tag, schema, Flatten(b))
  {
    hide SchemaAllows;
  }

  lemma {:induction false} OrderShows(target: Rank, a: Pages, r: Release, q: Release)
    requires Tops(r, Flatten(a), target) && Tops(q, Flatten(a), target) && r.marker != q.marker
    requires forall p :: p in Flatten(a) ==> p.valid
    ensures !OrderFree(Some(target), a)
  {
    hide OrderFree;
    var x := Flatten(a);
    var y := PutFirst(r, x, target);
    var z := PutFirst(q, x, target);
    FlattenOne(y);
    FlattenOne(z);
    SameMembers(x, y);
    SameMembers(x, z);
    var schema: int := if r.marker.value > 0 then r.marker.value else q.marker.value;
    var b: Pages, c: Pages := [y], [z];
    assert Flatten(b) == y && Flatten(c) == z;
    assert SchemaAllows(Some(target), schema, Flatten(b)) != SchemaAllows(Some(target), schema, Flatten(c));
    assert OrderFree(Some(target), a) ==> SchemaAllows(Some(target), schema, x) == SchemaAllows(Some(target), schema, Flatten(b))
    by {
      OrderFreeAt(Some(target), schema, a, b);
    }
    assert OrderFree(Some(target), a) ==> SchemaAllows(Some(target), schema, x) == SchemaAllows(Some(target), schema, Flatten(c))
    by {
      OrderFreeAt(Some(target), schema, a, c);
    }
  }

  // ---- Publication histories ----

  datatype Published = Published(rank: Rank, schema: nat)

  function Listed(h: seq<Published>): (l: seq<Release>)
    ensures |l| == |h| && forall i :: 0 <= i < |h| ==> l[i] == Release(true, Some(h[i].rank), false, Some(h[i].schema))
  {
    seq(|h|, i requires 0 <= i < |h| => Release(true, Some(h[i].rank), false, Some(h[i].schema)))
  }

  /** The release passes both gates against those published before it. */
  ghost predicate Passes(p: Published, before: seq<Published>) {
    CheckOrder(Some(p.rank), [Listed(before)]).Ok? && SchemaAllows(Some(p.rank), p.schema, Listed(before))
  }

  /** A history in which each release, of a rank of its own, passed both gates. */
  ghost predicate Gated(h: seq<Published>) {
    && (forall i, j :: 0 <= i < j < |h| ==> h[i].rank != h[j].rank)
    && forall i :: 0 <= i < |h| ==> Passes(h[i], h[..i])
  }

  function Ranks(h: seq<Published>): (r: seq<Rank>)
    ensures |r| == |h| && forall i :: 0 <= i < |h| ==> r[i] == h[i].rank
  {
    if h == [] then [] else Ranks(h[..|h| - 1]) + [h[|h| - 1].rank]
  }

  lemma {:induction false} RanksTo(h: seq<Published>, k: nat)
    requires k <= |h|
    ensures Ranks(h[..k]) == Ranks(h)[..k]
  {
  }

  /** The order gate's block, over ranks. */
  predicate Above(published: Rank, p: Rank) {
    Below(p, published) && (published.stable || !p.stable)
  }

  /** What the order gate asks of the next rank: the native line, and nothing published that blocks it. */
  ghost predicate Joins(p: Rank, before: seq<Rank>) {
    p.minor >= 131 && forall q :: q in before ==> !Above(q, p)
  }

  /** Some release of the history is below the rank. */
  ghost predicate HasLower(p: Rank, before: seq<Rank>) {
    exists q :: q in before && Below(q, p)
  }

  lemma {:induction false} OrderIsJoins(p: Rank, before: seq<Published>)
    ensures CheckOrder(Some(p), [Listed(before)]).Ok? <==> Joins(p, Ranks(before))
  {
    var listed, ranks := Listed(before), Ranks(before);
    OrderPagesAllow(p, [listed]);
    FlattenOne(listed);
    if Joins(p, ranks) {
      forall r | r in listed ensures r.valid && !Blocks(r, p) {
        var j :| 0 <= j < |listed| && listed[j] == r;
        assert ranks[j] in ranks;
      }
    }
    if OrderAllows(p, listed) {
      forall q | q in ranks ensures !Above(q, p) {
        var j :| 0 <= j < |ranks| && ranks[j] == q;
        assert listed[j] in listed;
      }
    }
  }

  /** A beta is never older than anything published before it, and stable versions never go down. */
  lemma {:induction false} VersionsAdvance(h: seq<Published>, i: nat, j: nat)
    requires Gated(h) && i < j < |h|
    ensures !h[j].rank.stable ==> Below(h[i].rank, h[j].rank)
    ensures h[i].rank.stable && h[j].rank.stable ==> Below(h[i].rank, h[j].rank)
    ensures h[i].rank.minor >= 131 && h[j].rank.minor >= 131
  {
    assert Passes(h[i], h[..i]) && Passes(h[j], h[..j]);
    OrderIsJoins(h[i].rank, h[..i]);
    OrderIsJoins(h[j].rank, h[..j]);
    assert Ranks(h[..j])[i] == h[i].rank;
    assert !Above(h[i].rank, h[j].rank);
  }

  /** The schema gate meets a published release exactly when one is below, and then its schema. */
  lemma {:induction false} HighestOfHistory(p: Rank, before: seq<Published>)
    ensures var m := Highest(Listed(before), p);
            && (m.Some? <==> HasLower(p, Ranks(before)))
            && (m.Some? ==> exists k :: 0 <= k < |before| && before[k].schema == m.value.schema)
  {
    var listed, ranks := Listed(before), Ranks(before);
    HighestIsHighest(listed, p);
    var m := Highest(listed, p);
    if m.Some? {
      var r :| r in listed && Counts(r, p) && r.rank == Some(m.value.rank) && r.marker == Some(m.value.schema);
      var k :| 0 <= k < |listed| && listed[k] == r;
      assert before[k].schema == m.value.schema && ranks[k] in ranks && Below(ranks[k], p);
    } else {
      forall q | q in ranks ensures !Below(q, p) {
        var j :| 0 <= j < |ranks| && ranks[j] == q;
        assert listed[j] in listed;
      }
    }
  }

  /** Every rank after the first has a lower one before it. */
  ghost predicate AllHaveLower(ranks: seq<Rank>) {
    forall i :: 0 < i < |ranks| ==> HasLower(ranks[i], ranks[..i])
  }

  ghost predicate SameSchemas(h: seq<Published>) {
    forall i :: 0 <= i < |h| ==> h[i].schema == h[0].schema
  }

  /** A history in which every release after the first has any lower one before it carries one schema. */
  lemma {:induction false} OneSchemaLower(h: seq<Published>)
    requires Gated(h) && AllHaveLower(Ranks(h))
    ensures SameSchemas(h)
  {
    forall i | 0 <= i < |h| ensures h[i].schema == h[0].schema {
      SchemaOf(h, i);
    }
  }

  lemma {:induction false} SchemaOf(h: seq<Published>, i: nat)
    requires Gated(h) && AllHaveLower(Ranks(h)) && i < |h|
    ensures h[i].schema == h[0].schema
    decreases i
  {
    if i > 0 {
      var before := h[..i];
      RanksTo(h, i);
      assert Passes(h[i], before) && HasLower(Ranks(h)[i], Ranks(h)[..i]);
      HighestOfHistory(h[i].rank, before);
      var k :| 0 <= k < |before| && before[k].schema == h[i].schema;
      SchemaOf(h, k);
    }
  }

  /** The next release is bound to the schema of the history exactly when it has a lower one, which a
      publisher can see beforehand. */
  lemma {:induction false} NextSchemaIsFixed(p: Rank, h: seq<Published>)
    requires h != [] && Gated(h) && SameSchemas(h) && Joins(p, Ranks(h))
    ensures (forall s :: Passes(Published(p, s), h) ==> s == h[0].schema) <==> HasLower(p, Ranks(h))
  {
    OrderIsJoins(p, h);
    HighestOfHistory(p, h);
    if !HasLower(p, Ranks(h)) {
      assert Passes(h[0], h[..0]);
      assert Passes(Published(p, h[0].schema + 1), h);
    }
  }

  // ---- Exactly which orders of publication keep one schema ----

  /** Ranks the order gate lets through one after another, each of them new. */
  ghost predicate Orderly(ranks: seq<Rank>) {
    && (forall i, j :: 0 <= i < j < |ranks| ==> ranks[i] != ranks[j])
    && forall i :: 0 <= i < |ranks| ==> Joins(ranks[i], ranks[..i])
  }

  /** The next release of this rank, with the schema the gate asks, or else the given one. */
  function Next(p: Rank, h: seq<Published>, free: nat): Published {
    var m := Highest(Listed(h), p);
    Published(p, if m.Some? then m.value.schema else free)
  }

  /** What may follow a history passes both gates, whatever schema it takes where it is free. */
  lemma {:induction false} NextPasses(p: Rank, h: seq<Published>, free: nat)
    requires Joins(p, Ranks(h)) && free > 0 && forall k :: 0 <= k < |h| ==> h[k].schema > 0
    ensures Passes(Next(p, h, free), h)
  {
    hide Highest, CheckOrder, Ranks, Joins;
    OrderIsJoins(p, h);
    HighestOfHistory(p, h);
  }

  lemma {:induction false} GatedOneMore(h: seq<Published>, p: Published)
    requires Gated(h) && Passes(p, h) && p.rank !in Ranks(h)
    ensures Gated(h + [p]) && Ranks(h + [p]) == Ranks(h) + [p.rank]
  {
    var g := h + [p];
    forall i | 0 <= i < |g| ensures Passes(g[i], g[..i]) {
      assert g[..i] == if i < |h| then h[..i] else h;
      assert i < |h| ==> Passes(h[i], h[..i]);
    }
    forall i | 0 <= i < |h| ensures g[i].rank != p.rank {
      assert Ranks(h)[i] in Ranks(h);
    }
  }

  /** Releases of these ranks can follow a history they suit. */
  lemma {:induction false} Continues(h: seq<Published>, ranks: seq<Rank>) returns (g: seq<Published>)
    requires Gated(h) && |h| <= |ranks| && Orderly(ranks) && Ranks(h) == ranks[..|h|]
    ensures Gated(g) && Ranks(g) == ranks && h <= g
    decreases |ranks| - |h|
  {
    if |h| == |ranks| {
      assert ranks[..|h|] == ranks;
      g := h;
    } else {
      var p := ranks[|h|];
      g := Extended(h, ranks, 1);
      g := Continues(g, ranks);
    }
  }

  lemma {:induction false} PassedSchema(p: Published, before: seq<Published>)
    requires Passes(p, before)
    ensures p.schema > 0
  {
  }

  lemma {:induction false} Extended(h: seq<Published>, ranks: seq<Rank>, free: nat) returns (g: seq<Published>)
    requires Gated(h) && |h| < |ranks| && Orderly(ranks) && Ranks(h) == ranks[..|h|] && free > 0
    ensures g == h + [Next(ranks[|h|], h, free)] && Gated(g) && Ranks(g) == ranks[..|g|]
  {
    hide Joins, Highest, CheckOrder, SchemaAllows, Ranks;
    var p := ranks[|h|];
    assert Joins(p, ranks[..|h|]);
    forall k | 0 <= k < |h| ensures h[k].schema > 0 {
      assert Passes(h[k], h[..k]);
      PassedSchema(h[k], h[..k]);
    }
    NextPasses(p, h, free);
    assert p !in ranks[..|h|];
    g := h + [Next(p, h, free)];
    GatedOneMore(h, Next(p, h, free));
    assert ranks[..|g|] == ranks[..|h|] + [p];
  }

  /** A history of these ranks whose release i, with none lower before it, takes another schema. */
  lemma {:induction false} Bumped(ranks: seq<Rank>, i: nat) returns (g: seq<Published>)
    requires Orderly(ranks) && 0 < i < |ranks| && !HasLower(ranks[i], ranks[..i])
    ensures Gated(g) && Ranks(g) == ranks && !SameSchemas(g)
  {
    var none: seq<Published> := [];
    assert ranks[..0] == [] && Ranks(none) == [];
    var start := OfLength(none, ranks, i);
    HighestOfHistory(ranks[i], start);
    var h := Extended(start, ranks, start[0].schema + 1);
    g := Continues(h, ranks);
    assert g[i] == h[i] && g[0] == h[0];
  }

  lemma {:induction false} OfLength(h: seq<Published>, ranks: seq<Rank>, n: nat) returns (g: seq<Published>)
    requires Gated(h) && |h| <= n <= |ranks| && Orderly(ranks) && Ranks(h) == ranks[..|h|]
    ensures |g| == n && Gated(g) && Ranks(g) == ranks[..n] && forall k :: 0 <= k < n ==> g[k].schema > 0
    decreases n - |h|
  {
    if |h| == n {
      g := h;
      forall k | 0 <= k < n ensures g[k].schema > 0 {
        assert Passes(g[k], g[..k]);
      }
    } else {
      g := Extended(h, ranks, 1);
      g := OfLength(g, ranks, n);
    }
  }

  /** An order of publication keeps one schema in every history with it exactly when each release after the
      first has a lower one before it. */
  lemma {:induction false} OneSchemaIffLower(ranks: seq<Rank>)
    requires Orderly(ranks)
    ensures (forall h :: Gated(h) && Ranks(h) == ranks ==> SameSchemas(h)) <==> AllHaveLower(ranks)
  {
    if AllHaveLower(ranks) {
      forall h | Gated(h) && Ranks(h) == ranks ensures SameSchemas(h) {
        OneSchemaLower(h);
      }
    } else {
      var i :| 0 < i < |ranks| && !HasLower(ranks[i], ranks[..i]);
      var g := Bumped(ranks, i);
    }
  }

  // ---- Promotion ----

  /** A stable promotes a beta of its version. */
  ghost predicate Promotes(p: Rank, before: seq<Rank>) {
    p.stable ==> exists q :: q in before && !q.stable && q.minor == p.minor && q.patch == p.patch
  }

  /** A history whose every stable promotes a beta carries one schema. */
  lemma {:induction false} PromotedIsOneSchema(h: seq<Published>)
    requires Gated(h) && forall i :: 0 <= i < |h| ==> Promotes(h[i].rank, Ranks(h[..i]))
    ensures SameSchemas(h)
  {
    var ranks := Ranks(h);
    forall i | 0 < i < |h| ensures HasLower(ranks[i], ranks[..i]) {
      RanksTo(h, i);
      assert Promotes(h[i].rank, Ranks(h[..i]));
      if h[i].rank.stable {
        var q :| q in ranks[..i] && !q.stable && q.minor == h[i].rank.minor && q.patch == h[i].rank.patch;
        assert Below(q, h[i].rank);
      } else {
        VersionsAdvance(h, 0, i);
        assert ranks[..i][0] == ranks[0];
      }
    }
    OneSchemaLower(h);
  }

  /** A stable with nothing lower: it passes both gates with another schema. */
  lemma {:induction false} UnpromotedStableChangesSchema()
    ensures var beta, stable := Published(Rank(132, 0, false, 1), 1), Published(Rank(131, 0, true, 0), 2);
            Gated([beta, stable]) && !SameSchemas([beta, stable])
  {
    var beta, stable := Published(Rank(132, 0, false, 1), 1), Published(Rank(131, 0, true, 0), 2);
    var h := [beta, stable];
    assert h[..0] == [] && h[..1] == [beta];
    assert Ranks([beta]) == [beta.rank];
    OrderIsJoins(beta.rank, []);
    OrderIsJoins(stable.rank, [beta]);
    HighestOfHistory(beta.rank, []);
    HighestOfHistory(stable.rank, [beta]);
    assert h[1].schema != h[0].schema;
  }
}
