/** go/protocol/push.go: filling a sentence's placeholders from a map walked in no fixed order. */
module Push {
  import opened Wrappers

  type Args = map<string, string>

  // ---- Go's string functions ----

  predicate StartsWith(s: string, p: string) {
    |p| <= |s| && s[..|p|] == p
  }

  /** strings.ReplaceAll for a non-empty string: left to right, matches do not overlap. */
  function ReplaceAll(s: string, what: string, with: string): string
    requires what != ""
    decreases |s|
  {
    if s == "" then ""
    else if StartsWith(s, what) then with + ReplaceAll(s[|what|..], what, with)
    else [s[0]] + ReplaceAll(s[1..], what, with)
  }

  function Placeholder(k: string): string { "{" + k + "}" }

  /** The text after the walk has visited the keys of order, in that order. */
  function FillInOrder(s: string, args: Args, order: seq<string>): string
    requires forall k :: k in order ==> k in args
  {
    if order == [] then s
    else
      var last := order[|order| - 1];
      ReplaceAll(FillInOrder(s, args, order[..|order| - 1]), Placeholder(last), args[last])
  }

  /** order lists every key of args once. */
  ghost predicate Walk(order: seq<string>, args: Args) {
    && (forall k :: k in order <==> k in args)
    && (forall i, j :: 0 <= i < j < |order| ==> order[i] != order[j])
  }

  method FillPlaceholders(s: string, args: Args) returns (r: string, ghost order: seq<string>)
    ensures Walk(order, args)
    ensures r == FillInOrder(s, args, order)
    ensures Stable(s) && BraceFreeArgs(args) ==> r == Substitute(s, args)
  {
    r, order := s, [];
    var left := args.Keys;
    while left != {}
      invariant left <= args.Keys
      invariant forall k :: k in order <==> k in args.Keys - left
      invariant forall i, j :: 0 <= i < j < |order| ==> order[i] != order[j]
      invariant r == FillInOrder(s, args, order)
    {
      var k :| k in left;
      r := ReplaceAll(r, Placeholder(k), args[k]);
      assert k !in order && (order + [k])[..|order|] == order;
      order := order + [k];
      left := left - {k};
    }
    if Stable(s) && BraceFreeArgs(args) {
      WalksAgree(s, args, order);
    }
  }

  // ---- One simultaneous substitution ----

  predicate BraceFree(s: string) { '{' !in s && '}' !in s }

  predicate BraceFreeArgs(args: Args) {
    forall k :: k in args ==> BraceFree(k) && BraceFree(args[k])
  }

  /** The number of characters before the first brace. */
  function Plain(s: string): (n: nat)
    ensures n <= |s| && (n < |s| ==> s[n] == '{' || s[n] == '}')
  {
    if s == "" || s[0] == '{' || s[0] == '}' then 0 else 1 + Plain(s[1..])
  }

  lemma {:induction false} PlainIsBraceFree(s: string)
    ensures BraceFree(s[..Plain(s)])
  {
    if s != "" && s[0] != '{' && s[0] != '}' {
      PlainIsBraceFree(s[1..]);
      assert s[..Plain(s)] == [s[0]] + s[1..][..Plain(s) - 1];
    }
  }

  /** s starts with a placeholder: an opening brace, a key without braces, a closing brace. */
  predicate Hole(s: string) {
    s != "" && s[0] == '{' && Plain(s[1..]) + 1 < |s| && s[Plain(s[1..]) + 1] == '}'
  }

  function Key(s: string): (k: string)
    requires Hole(s)
    ensures BraceFree(k) && |k| + 2 <= |s|
  {
    PlainIsBraceFree(s[1..]);
    s[1..][..Plain(s[1..])]
  }

  function AfterHole(s: string): (t: string)
    requires Hole(s)
    ensures |t| < |s| && s == Placeholder(Key(s)) + t
  {
    s[|Key(s)| + 2..]
  }

  /** Each placeholder becomes its argument, or stays when it has none. Inserted text is not read again. */
  function Substitute(s: string, args: Args): string
    decreases |s|
  {
    if s == "" then ""
    else if Hole(s) then
      (if Key(s) in args then args[Key(s)] else Placeholder(Key(s))) + Substitute(AfterHole(s), args)
    else [s[0]] + Substitute(s[1..], args)
  }

  /** Outside its placeholders the sentence has no closing brace. */
  predicate NoOpenClose(s: string)
    decreases |s|
  {
    s == "" ||
    if Hole(s) then NoOpenClose(AfterHole(s)) else s[0] != '}' && NoOpenClose(s[1..])
  }

  /** Once an opening brace starts no placeholder, no closing brace stands outside one. Filling can then
      never make a new placeholder out of old braces. */
  predicate Stable(s: string)
    decreases |s|
  {
    s == "" ||
    if Hole(s) then Stable(AfterHole(s))
    else if s[0] == '{' then NoOpenClose(s[1..])
    else Stable(s[1..])
  }

  // ---- Every walk gives the simultaneous substitution ----

  lemma {:induction false} PlainOfBraceFree(p: string, t: string)
    requires BraceFree(p)
    ensures Plain(p + t) == |p| + Plain(t)
  {
    if p != "" {
      assert (p + t)[1..] == p[1..] + t;
      PlainOfBraceFree(p[1..], t);
    } else {
      assert p + t == t;
    }
  }

  lemma {:induction false} HoleMatches(s: string, k: string)
    requires BraceFree(k)
    ensures StartsWith(s, Placeholder(k)) <==> Hole(s) && Key(s) == k
    ensures StartsWith(s, Placeholder(k)) ==> s[|k| + 2..] == AfterHole(s)
  {
    if StartsWith(s, Placeholder(k)) {
      var t := s[|k| + 1..];
      assert s == Placeholder(k) + s[|k| + 2..];
      assert s[1..] == k + t;
      PlainOfBraceFree(k, t);
      assert t[0] == '}' && Plain(t) == 0;
    }
  }

  lemma {:induction false} ReplaceIsSubstitute(s: string, k: string, v: string)
    requires BraceFree(k)
    ensures ReplaceAll(s, Placeholder(k), v) == Substitute(s, map[k := v])
    decreases |s|
  {
    HoleMatches(s, k);
    if s == "" {
    } else if Hole(s) && Key(s) == k {
      ReplaceIsSubstitute(AfterHole(s), k, v);
    } else if Hole(s) {
      ReplaceIsSubstitute(AfterHole(s), k, v);
      SkipHole(s, k, v);
    } else {
      ReplaceIsSubstitute(s[1..], k, v);
    }
  }

  /** ReplaceAll steps through a placeholder with another key one character at a time. */
  lemma {:induction false} SkipHole(s: string, k: string, v: string)
    requires BraceFree(k) && Hole(s) && Key(s) != k
    ensures ReplaceAll(s, Placeholder(k), v) == Placeholder(Key(s)) + ReplaceAll(AfterHole(s), Placeholder(k), v)
  {
    HoleMatches(s, k);
    hide Hole, Key, AfterHole;
    var p := Placeholder(k);
    var t := "}" + AfterHole(s);
    assert s[1..] == Key(s) + t;
    assert !StartsWith(t, p) by { assert t[0] != p[0]; }
    assert t[1..] == AfterHole(s);
    calc {
      ReplaceAll(s, p, v);
      "{" + ReplaceAll(Key(s) + t, p, v);
      { SkipPlain(Key(s), t, k, v); }
      "{" + (Key(s) + ReplaceAll(t, p, v));
      "{" + (Key(s) + ("}" + ReplaceAll(AfterHole(s), p, v)));
      Placeholder(Key(s)) + ReplaceAll(AfterHole(s), p, v);
    }
  }

  lemma {:induction false} SkipPlain(p: string, t: string, k: string, v: string)
    requires BraceFree(p)
    ensures ReplaceAll(p + t, Placeholder(k), v) == p + ReplaceAll(t, Placeholder(k), v)
  {
    if p == "" {
      assert p + t == t;
    } else {
      assert (p + t)[1..] == p[1..] + t;
      SkipPlain(p[1..], t, k, v);
      Regroup(p, ReplaceAll(t, Placeholder(k), v));
    }
  }

  lemma {:induction false} Regroup(p: string, x: string)
    requires p != ""
    ensures [p[0]] + (p[1..] + x) == p + x
  {
  }

  lemma {:induction false} SubstitutePlain(p: string, t: string, args: Args)
    requires BraceFree(p)
    ensures Substitute(p + t, args) == p + Substitute(t, args)
  {
    if p == "" {
      assert p + t == t;
    } else {
      assert (p + t)[1..] == p[1..] + t;
      SubstitutePlain(p[1..], t, args);
      assert !Hole(p + t);
      Regroup(p, Substitute(t, args));
    }
  }

  lemma {:induction false} SubstituteHole(k: string, t: string, args: Args)
    requires BraceFree(k)
    ensures Substitute(Placeholder(k) + t, args) == (if k in args then args[k] else Placeholder(k)) + Substitute(t, args)
  {
    var s := Placeholder(k) + t;
    HoleMatches(s, k);
    assert s[|k| + 2..] == t;
  }

  /** The first brace, if any, opens. */
  predicate FirstOpens(t: string) { Plain(t) < |t| ==> t[Plain(t)] == '{' }

  lemma {:induction false} OpensAfter(v: string, rest: string)
    requires BraceFree(v) && FirstOpens(rest)
    ensures FirstOpens(v + rest)
  {
    PlainOfBraceFree(v, rest);
  }

  lemma {:induction false} OpensHere(k: string, rest: string)
    ensures FirstOpens(Placeholder(k) + rest)
  {
    OpensAt(Placeholder(k) + rest);
  }

  lemma {:induction false} OpensStill(c: char, rest: string)
    requires c != '}' && FirstOpens(rest)
    ensures FirstOpens([c] + rest)
  {
    PlainCons(c, rest);
  }

  /** With no closing brace outside its placeholders, a sentence gets none by filling. */
  lemma {:induction false} FirstBraceOpens(s: string, args: Args)
    requires NoOpenClose(s) && BraceFreeArgs(args)
    ensures FirstOpens(Substitute(s, args))
    decreases |s|
  {
    hide Hole, Key, AfterHole, BraceFree, FirstOpens, Placeholder;
    if s == "" {
      NothingOpens();
    } else if Hole(s) {
      var rest := Substitute(AfterHole(s), args);
      FirstBraceOpens(AfterHole(s), args);
      if Key(s) in args {
        OpensAfter(args[Key(s)], rest);
      } else {
        OpensHere(Key(s), rest);
      }
    } else {
      FirstBraceOpens(s[1..], args);
      OpensStill(s[0], Substitute(s[1..], args));
    }
  }

  lemma {:induction false} NothingOpens()
    ensures FirstOpens("")
  {
  }

  lemma {:induction false} OpensAt(t: string)
    requires t != "" && t[0] == '{'
    ensures Plain(t) == 0
  {
  }

  lemma {:induction false} PlainCons(c: char, rest: string)
    ensures Plain([c] + rest) == if c == '{' || c == '}' then 0 else 1 + Plain(rest)
  {
    assert ([c] + rest)[1..] == rest;
  }

  /** A placeholder that filling creates holds a whole inserted value. */
  lemma {:induction false} NewHoleHoldsValue(s: string, args: Args, size: nat)
    requires BraceFreeArgs(args) && forall j :: j in args ==> |args[j]| >= size
    requires var t := Substitute(s, args); Plain(t) < |t| && t[Plain(t)] == '}'
    ensures Plain(Substitute(s, args)) >= size || (Plain(s) < |s| && s[Plain(s)] == '}')
    decreases |s|
  {
    if s == "" {
    } else if Hole(s) {
      if Key(s) in args {
        PlainOfBraceFree(args[Key(s)], Substitute(AfterHole(s), args));
      }
    } else {
      var rest := Substitute(s[1..], args);
      assert ([s[0]] + rest)[1..] == rest;
      if s[0] != '{' && s[0] != '}' {
        NewHoleHoldsValue(s[1..], args, size);
      }
    }
  }

  lemma {:induction false} OtherHole(rest: string, k: string, v: string)
    requires Hole("{" + rest) && Key("{" + rest) != k
    ensures Substitute("{" + rest, map[k := v]) == "{" + Substitute(rest, map[k := v])
  {
    var key, after := Key("{" + rest), AfterHole("{" + rest);
    HoleShape(rest);
    SubstituteHole(key, after, map[k := v]);
    SubstitutePlain(key, "}" + after, map[k := v]);
    CloseAhead(after, map[k := v]);
    BracesAround(key, Substitute(after, map[k := v]));
  }

  lemma {:induction false} HoleShape(rest: string)
    requires Hole("{" + rest)
    ensures var s := "{" + rest; rest == Key(s) + ("}" + AfterHole(s)) && s == Placeholder(Key(s)) + AfterHole(s)
  {
    assert ("{" + rest)[1..] == rest;
  }

  lemma {:induction false} CloseAhead(after: string, args: Args)
    ensures Substitute("}" + after, args) == "}" + Substitute(after, args)
  {
    assert ("}" + after)[1..] == after;
  }

  lemma {:induction false} BracesAround(key: string, t: string)
    ensures Placeholder(key) + t == "{" + (key + ("}" + t))
  {
  }

  /** Filling one more key after the others is filling them together. */
  lemma {:induction false} FillOneMore(s: string, args: Args, k: string, v: string)
    requires BraceFreeArgs(args) && BraceFree(k) && BraceFree(v) && k !in args
    requires Stable(s) || forall j :: j in args ==> |args[j]| > |k|
    ensures Substitute(Substitute(s, args), map[k := v]) == Substitute(s, args[k := v])
    decreases |s|
  {
    var one := map[k := v];
    if s == "" {
    } else if Hole(s) {
      var rest := Substitute(AfterHole(s), args);
      FillOneMore(AfterHole(s), args, k, v);
      if Key(s) in args {
        SubstitutePlain(args[Key(s)], rest, one);
      } else {
        SubstituteHole(Key(s), rest, one);
      }
    } else {
      var rest := Substitute(s[1..], args);
      assert ([s[0]] + rest)[1..] == rest;
      if s[0] == '{' && NoOpenClose(s[1..]) {
        FirstBraceOpens(s[1..], args);
        StableAfter(s[1..]);
      }
      FillOneMore(s[1..], args, k, v);
      if s[0] == '{' && Hole("{" + rest) {
        NewHoleHoldsValue(s[1..], args, |k| + 1);
        OtherHole(rest, k, v);
      }
    }
  }

  lemma {:induction false} StableAfter(s: string)
    requires NoOpenClose(s)
    ensures Stable(s)
    decreases |s|
  {
    if s != "" {
      StableAfter(if Hole(s) then AfterHole(s) else s[1..]);
    }
  }

  lemma {:induction false} NothingToFill(s: string)
    ensures Substitute(s, map[]) == s
    decreases |s|
  {
    if s != "" {
      NothingToFill(if Hole(s) then AfterHole(s) else s[1..]);
    }
  }

  /** Whatever order the map is walked in, a stable sentence with brace-free arguments gets the text of
      one simultaneous substitution. */
  lemma {:induction false} WalksAgree(s: string, args: Args, order: seq<string>)
    requires BraceFreeArgs(args) && Walk(order, args)
    requires Stable(s) || forall j, k :: j in args && k in args ==> |args[j]| > |k|
    ensures FillInOrder(s, args, order) == Substitute(s, args)
    decreases |order|
  {
    if order == [] {
      assert args == map[];
      NothingToFill(s);
    } else {
      var last, before := order[|order| - 1], order[..|order| - 1];
      var fewer := args - {last};
      assert Walk(before, fewer);
      WalksAgree(s, fewer, before);
      SameWalk(s, args, fewer, before);
      ReplaceIsSubstitute(FillInOrder(s, args, before), last, args[last]);
      FillOneMore(s, fewer, last, args[last]);
      assert fewer[last := args[last]] == args;
    }
  }

  lemma {:induction false} SameWalk(s: string, args: Args, fewer: Args, order: seq<string>)
    requires forall k :: k in order ==> k in args && k in fewer && args[k] == fewer[k]
    ensures FillInOrder(s, args, order) == FillInOrder(s, fewer, order)
  {
    if order != [] {
      SameWalk(s, args, fewer, order[..|order| - 1]);
    }
  }

  // ---- The condition is exact ----

  lemma {:induction false} WalkExists(args: Args) returns (order: seq<string>)
    ensures Walk(order, args)
    decreases |args.Keys|
  {
    order := [];
    if args.Keys != {} {
      var k :| k in args.Keys;
      order := WalkExists(args - {k});
      order := order + [k];
    }
  }

  function HoleKeys(s: string): (keys: set<string>)
    ensures forall k :: k in keys ==> BraceFree(k) && |k| < |s|
    decreases |s|
  {
    if s == "" then {}
    else if Hole(s) then {Key(s)} + HoleKeys(AfterHole(s))
    else HoleKeys(s[1..])
  }

  lemma {:induction false} ClosesHole(t: string)
    requires Plain(t) < |t| && t[Plain(t)] == '}'
    ensures Hole("{" + t)
  {
    assert ("{" + t)[1..] == t;
  }

  lemma {:induction false} FindHole(t: string) returns (i: nat)
    requires '}' in t
    ensures i <= |t| && Hole(("{" + t)[i..])
    decreases |t|
  {
    hide Hole, Plain;
    var n := Plain(t);
    CloseBeyondPlain(t);
    if t[n] == '}' {
      i := 0;
      ClosesHole(t);
      assert ("{" + t)[0..] == "{" + t;
    } else {
      i := FindHole(t[n + 1..]);
      LaterHole(t, n, i);
      i := n + 1 + i;
    }
  }

  lemma {:induction false} CloseBeyondPlain(t: string)
    requires '}' in t
    ensures Plain(t) < |t| && (t[Plain(t)] == '}' || '}' in t[Plain(t) + 1..])
  {
    var n := Plain(t);
    PlainIsBraceFree(t);
    var j :| 0 <= j < |t| && t[j] == '}';
    assert j >= n by { assert forall m :: 0 <= m < n ==> t[..n][m] == t[m]; }
    assert j > n ==> t[n + 1..][j - n - 1] == '}';
  }

  lemma {:induction false} LaterHole(t: string, n: nat, i: nat)
    requires n < |t| && t[n] == '{' && i <= |t| - n
    ensures ("{" + t)[n + 1 + i..] == ("{" + t[n + 1..])[i..]
  {
    assert ("{" + t)[n + 1..] == "{" + t[n + 1..];
    assert ("{" + t)[n + 1 + i..] == ("{" + t)[n + 1..][i..];
  }

  lemma {:induction false} CloseSurvives(s: string, args: Args)
    requires !NoOpenClose(s)
    ensures '}' in Substitute(s, args)
    decreases |s|
  {
    if Hole(s) {
      CloseSurvives(AfterHole(s), args);
    } else if s[0] != '}' {
      CloseSurvives(s[1..], args);
    }
  }

  lemma {:induction false} DropFront(v: string, rest: string, i: nat) returns (j: nat)
    requires i < |rest|
    ensures j < |v + rest| && (v + rest)[j..] == rest[i..]
  {
    j := |v| + i;
  }

  /** An unstable sentence, every placeholder filled, has a placeholder again. */
  lemma {:induction false} UnstableMakesHole(s: string, args: Args) returns (i: nat)
    requires !Stable(s)
    ensures i < |Substitute(s, args)| && Hole(Substitute(s, args)[i..])
    decreases |s|
  {
    var t := Substitute(s, args);
    if Hole(s) {
      var v := if Key(s) in args then args[Key(s)] else Placeholder(Key(s));
      i := UnstableMakesHole(AfterHole(s), args);
      i := DropFront(v, Substitute(AfterHole(s), args), i);
    } else if s[0] == '{' {
      CloseSurvives(s[1..], args);
      i := FindHole(Substitute(s[1..], args));
    } else {
      i := UnstableMakesHole(s[1..], args);
      i := DropFront([s[0]], Substitute(s[1..], args), i);
    }
  }

  lemma {:induction false} SuffixAfterFirst(c: char, rest: string, i: nat)
    requires i <= |rest|
    ensures if i == 0 then ([c] + rest)[i..] == [c] + rest && ([c] + rest)[1..] == rest
            else ([c] + rest)[i..] == rest[i - 1..]
  {
  }

  lemma {:induction false} HoleIsPast(v: string, rest: string, i: nat)
    requires BraceFree(v) && i < |v + rest| && Hole((v + rest)[i..])
    ensures |v| <= i && (v + rest)[i..] == rest[i - |v|..]
  {
    var t := v + rest;
    assert i >= |v| by {
      assert t[i..][0] == t[i];
      assert forall m :: 0 <= m < |v| ==> t[m] == v[m];
    }
  }

  /** When every placeholder is filled with a long value, those that remain have long keys. */
  lemma {:induction false} RemainingHolesAreLong(s: string, args: Args, size: nat, i: nat)
    requires BraceFreeArgs(args) && HoleKeys(s) <= args.Keys && forall j :: j in args ==> |args[j]| >= size
    requires i < |Substitute(s, args)| && Hole(Substitute(s, args)[i..])
    ensures |Key(Substitute(s, args)[i..])| >= size
    decreases |s|
  {
    var t := Substitute(s, args);
    if Hole(s) {
      var v, rest := args[Key(s)], Substitute(AfterHole(s), args);
      HoleIsPast(v, rest, i);
      RemainingHolesAreLong(AfterHole(s), args, size, i - |v|);
    } else {
      var rest := Substitute(s[1..], args);
      SuffixAfterFirst(s[0], rest, i);
      if i == 0 {
        NewHoleHoldsValue(s[1..], args, size);
      } else {
        RemainingHolesAreLong(s[1..], args, size, i - 1);
      }
    }
  }

  lemma {:induction false} DroppingShortens(t: string, k: string)
    requires BraceFree(k)
    ensures |Substitute(t, map[k := ""])| <= |t|
    decreases |t|
  {
    if t != "" {
      DroppingShortens(if Hole(t) then AfterHole(t) else t[1..], k);
    }
  }

  lemma {:induction false} HolesDoNotOverlap(t: string, i: nat)
    requires Hole(t) && 0 < i < |t| && t[i] == '{'
    ensures |Key(t)| + 2 <= i && t[i..] == AfterHole(t)[i - |Key(t)| - 2..]
  {
    var key := Key(t);
    assert i >= |key| + 2 by {
      assert forall m :: 0 <= m < |key| + 2 ==> t[m] == Placeholder(key)[m];
      assert forall m :: 0 <= m < |key| ==> Placeholder(key)[m + 1] == key[m];
    }
  }

  lemma {:induction false} DroppedLength(t: string, k: string)
    requires t != ""
    ensures |Substitute(t, map[k := ""])| ==
            if Hole(t) then (if Key(t) == k then 0 else |Key(t)| + 2) + |Substitute(AfterHole(t), map[k := ""])|
            else 1 + |Substitute(t[1..], map[k := ""])|
    ensures Hole(t) ==> |AfterHole(t)| == |t| - |Key(t)| - 2
  {
  }

  lemma {:induction false} DroppingHoleShortens(t: string, k: string, i: nat)
    requires BraceFree(k) && i < |t| && Hole(t[i..]) && Key(t[i..]) == k
    ensures |Substitute(t, map[k := ""])| < |t|
    decreases |t|
  {
    hide *;
    OpensHole(t, i);
    DroppedLength(t, k);
    if i == 0 {
      Whole(t);
      DroppingShortens(AfterHole(t), k);
    } else if Hole(t) {
      HolesDoNotOverlap(t, i);
      var rest, m := AfterHole(t), i - |Key(t)| - 2;
      assert t[i..] == rest[m..];
      DroppingHoleShortens(rest, k, m);
    } else {
      var rest, m := t[1..], i - 1;
      Suffix(t, i);
      DroppingHoleShortens(rest, k, m);
    }
  }

  lemma {:induction false} Whole(t: string)
    ensures t[0..] == t
  {
  }

  lemma {:induction false} OpensHole(t: string, i: nat)
    requires i < |t| && Hole(t[i..])
    ensures t[i] == '{'
  {
    assert t[i..][0] == t[i];
  }

  lemma {:induction false} Suffix(t: string, i: nat)
    requires 0 < i <= |t|
    ensures t[i..] == t[1..][i - 1..]
  {
  }

  lemma {:induction false} TooLongToOccur(s: string, what: string, with: string)
    requires |what| > |s|
    ensures ReplaceAll(s, what, with) == s
    decreases |s|
  {
    if s != "" {
      TooLongToOccur(s[1..], what, with);
    }
  }

  lemma {:induction false} FirstStep(s: string, args: Args, k: string, order: seq<string>)
    requires k in args && forall j :: j in order ==> j in args
    ensures FillInOrder(s, args, [k] + order) == FillInOrder(ReplaceAll(s, Placeholder(k), args[k]), args, order)
  {
    var all := [k] + order;
    if order == [] {
      assert all[..|all| - 1] == [];
    } else {
      assert all[..|all| - 1] == [k] + order[..|order| - 1];
      FirstStep(s, args, k, order[..|order| - 1]);
    }
  }

  ghost predicate OrderIndependent(s: string) {
    forall args, a, b :: BraceFreeArgs(args) && Walk(a, args) && Walk(b, args)
      ==> FillInOrder(s, args, a) == FillInOrder(s, args, b)
  }

  function Repeat(n: nat): (v: string)
    ensures |v| == n && BraceFree(v)
  {
    seq(n, i => 'x')
  }

  /** A key that fits only the filled text: visited last it is replaced, visited first it is not. */
  lemma {:induction false} LastAndFirst(s: string, long: Args, k: string, order: seq<string>)
    requires Walk(order, long) && BraceFreeArgs(long) && k !in long && |k| > |s|
    requires FillInOrder(s, long, order) == Substitute(s, long)
    ensures FillInOrder(s, long[k := ""], order + [k]) == ReplaceAll(Substitute(s, long), Placeholder(k), "")
    ensures FillInOrder(s, long[k := ""], [k] + order) == Substitute(s, long)
  {
    var args := long[k := ""];
    SameWalk(s, args, long, order);
    assert (order + [k])[..|order + [k]| - 1] == order;
    FirstStep(s, args, k, order);
    TooLongToOccur(s, Placeholder(k), "");
  }

  lemma {:induction false} ExtendWalk(long: Args, k: string, order: seq<string>)
    requires Walk(order, long) && k !in long
    ensures Walk(order + [k], long[k := ""]) && Walk([k] + order, long[k := ""])
  {
  }

  /** For an unstable sentence, two walks over some brace-free arguments disagree. */
  lemma {:induction false} UnstableWalksDiffer(s: string) returns (args: Args, a: seq<string>, b: seq<string>)
    requires !Stable(s)
    ensures BraceFreeArgs(args) && Walk(a, args) && Walk(b, args)
    ensures FillInOrder(s, args, a) != FillInOrder(s, args, b)
  {
    var long := map k | k in HoleKeys(s) :: Repeat(|s| + 1);
    var order := WalkExists(long);
    WalksAgree(s, long, order);
    var k := LongHole(s, long);
    args, a, b := long[k := ""], order + [k], [k] + order;
    ExtendWalk(long, k, order);
    LastAndFirst(s, long, k, order);
  }

  /** A placeholder left over from filling every one of an unstable sentence with long values. */
  lemma {:induction false} LongHole(s: string, long: Args) returns (k: string)
    requires !Stable(s) && BraceFreeArgs(long) && long.Keys == HoleKeys(s)
    requires forall j :: j in long ==> |long[j]| > |s|
    ensures |k| > |s| && BraceFree(k) && k !in long
    ensures ReplaceAll(Substitute(s, long), Placeholder(k), "") != Substitute(s, long)
  {
    var t := Substitute(s, long);
    var i := UnstableMakesHole(s, long);
    RemainingHolesAreLong(s, long, |s| + 1, i);
    k := Key(t[i..]);
    ReplaceIsSubstitute(t, k, "");
    DroppingHoleShortens(t, k, i);
  }

  /** The walk's order never shows, for any brace-free arguments, exactly when the sentence is stable. */
  lemma {:induction false} OrderIndependentIffStable(s: string)
    ensures OrderIndependent(s) <==> Stable(s)
  {
    if Stable(s) {
      forall args, a, b | BraceFreeArgs(args) && Walk(a, args) && Walk(b, args)
        ensures FillInOrder(s, args, a) == FillInOrder(s, args, b)
      {
        WalksAgree(s, args, a);
        WalksAgree(s, args, b);
      }
    } else {
      var args, a, b := UnstableWalksDiffer(s);
    }
  }

  /** A value with braces breaks it for the stable sentence "{a}". */
  lemma {:induction false} BracesInAValueShow()
    ensures var args := map["a" := "{b}", "b" := "x"];
            Stable("{a}") && Walk(["a", "b"], args) && Walk(["b", "a"], args)
            && FillInOrder("{a}", args, ["a", "b"]) == "x" && FillInOrder("{a}", args, ["b", "a"]) == "{b}"
  {
    var args := map["a" := "{b}", "b" := "x"];
    assert FillInOrder("{a}", args, []) == "{a}";
    assert ["a", "b"][..1] == ["a"] && ["b", "a"][..1] == ["b"] && ["a"][..0] == [] && ["b"][..0] == [];
    assert Placeholder("a") == "{a}" && Placeholder("b") == "{b}";
    assert ReplaceAll("{a}", "{a}", "{b}") == "{b}" by { assert "{a}"[3..] == ""; }
    assert ReplaceAll("{b}", "{b}", "x") == "x" by { assert "{b}"[3..] == ""; }
    TooFar("{a}", "{b}", "x");
    assert Hole("{a}") by { assert "{a}"[1..] == "a}"; PlainOfBraceFree("a", "}"); }
    assert AfterHole("{a}") == "" by { HoleMatches("{a}", "a"); }
  }

  // ---- Which values are safe ----

  /** All keys and values are brace-free, the value of k aside. */
  predicate OtherwisePlain(args: Args, k: string) {
    forall j :: j in args ==> BraceFree(j) && (j != k ==> BraceFree(args[j]))
  }

  /** The walk never shows when this is one of the values. */
  ghost predicate Safe(v: string) {
    forall s, args: Args, k, a, b ::
      Stable(s) && k in args && args[k] == v && OtherwisePlain(args, k) && Walk(a, args) && Walk(b, args)
      ==> FillInOrder(s, args, a) == FillInOrder(s, args, b)
  }

  /** A sentence, two keys and a place: the sentence shows only k, and with v for k it shows j there. */
  ghost predicate Betrays(s: string, k: string, v: string, j: string, i: nat) {
    && Stable(s) && BraceFree(k) && BraceFree(j) && j != k
    && Substitute(s, map[j := ""]) == s
    && var t := Substitute(s, map[k := v]); i < |t| && Hole(t[i..]) && Key(t[i..]) == j
  }

  lemma {:induction false} BetrayedIsUnsafe(s: string, k: string, v: string, j: string, i: nat)
    requires Betrays(s, k, v, j, i)
    ensures !Safe(v)
  {
    var args := map[k := v, j := ""];
    BetrayedWalks(s, k, v, j, i);
    PairWalks(args, k, j);
    PairIsPlain(k, v, j);
  }

  lemma {:induction false} PairIsPlain(k: string, v: string, j: string)
    requires BraceFree(k) && BraceFree(j)
    ensures OtherwisePlain(map[k := v, j := ""], k)
  {
  }

  lemma {:induction false} PairWalks(args: Args, k: string, j: string)
    requires k != j && args.Keys == {k, j}
    ensures Walk([k, j], args) && Walk([j, k], args)
  {
  }

  lemma {:induction false} BetrayedWalks(s: string, k: string, v: string, j: string, i: nat)
    requires Betrays(s, k, v, j, i)
    ensures var args := map[k := v, j := ""]; FillInOrder(s, args, [k, j]) != FillInOrder(s, args, [j, k])
  {
    hide Stable, Hole, Key, Substitute, ReplaceAll, FillInOrder, BraceFree, Plain;
    var args := map[k := v, j := ""];
    var t := Substitute(s, map[k := v]);
    ReplaceIsSubstitute(s, k, v);
    ReplaceIsSubstitute(s, j, "");
    ReplaceIsSubstitute(t, j, "");
    DroppingHoleShortens(t, j, i);
    TwoSteps(s, args, k, j);
    TwoSteps(s, args, j, k);
  }

  lemma {:induction false} TwoSteps(s: string, args: Args, k: string, j: string)
    requires k in args && j in args
    ensures FillInOrder(s, args, [k, j]) == ReplaceAll(ReplaceAll(s, Placeholder(k), args[k]), Placeholder(j), args[j])
  {
    hide ReplaceAll;
    FirstStep(s, args, k, [j]);
    FirstStep(ReplaceAll(s, Placeholder(k), args[k]), args, j, []);
    assert [k] + [j] == [k, j] && [j] + [] == [j];
  }

  /** How a value holds braces: it closes first, holds a placeholder, or opens last. */
  datatype Braces = ClosesFirst | Holds(i: nat) | OpensLast(u: string, q: string)

  lemma {:induction false} PlainStops(v: string)
    requires !BraceFree(v)
    ensures Plain(v) < |v|
  {
    PlainIsBraceFree(v);
    assert v[..|v|] == v;
  }

  lemma {:induction false} HoleAt(v: string, n: nat)
    requires n < |v| && v[n] == '{'
    requires var rest := v[n + 1..]; Plain(rest) < |rest| && rest[Plain(rest)] == '}'
    ensures Hole(v[n..])
  {
    hide Plain;
    assert v[n..][1..] == v[n + 1..];
  }

  /** What the text after the first n characters and an opening brace holds, v holds. */
  lemma {:induction false} HoldsToo(v: string, n: nat, b: Braces) returns (c: Braces)
    requires n < |v| && v[n] == '{' && !b.ClosesFirst?
    requires b.Holds? ==> b.i < |v[n + 1..]| && Hole(v[n + 1..][b.i..])
    requires b.OpensLast? ==> v[n + 1..] == b.u + ("{" + b.q) && BraceFree(b.q)
    ensures !c.ClosesFirst?
    ensures c.Holds? ==> c.i < |v| && Hole(v[c.i..])
    ensures c.OpensLast? ==> v == c.u + ("{" + c.q) && BraceFree(c.q)
  {
    hide Hole, BraceFree;
    if b.Holds? {
      assert v[n + 1 + b.i..] == v[n + 1..][b.i..];
      c := Holds(n + 1 + b.i);
    } else {
      assert v == v[..n + 1] + v[n + 1..];
      assert v == (v[..n + 1] + b.u) + ("{" + b.q);
      c := OpensLast(v[..n + 1] + b.u, b.q);
    }
  }

  lemma {:induction false} Classify(v: string) returns (b: Braces)
    requires !BraceFree(v)
    ensures b.ClosesFirst? ==> Plain(v) < |v| && v[Plain(v)] == '}'
    ensures b.Holds? ==> b.i < |v| && Hole(v[b.i..])
    ensures b.OpensLast? ==> v == b.u + ("{" + b.q) && BraceFree(b.q)
    decreases |v|
  {
    hide Hole, BraceFree, Plain;
    var n := Plain(v);
    PlainStops(v);
    if v[n] == '}' {
      return ClosesFirst;
    }
    var rest := v[n + 1..];
    if BraceFree(rest) {
      assert v == v[..n] + ("{" + rest);
      return OpensLast(v[..n], rest);
    }
    PlainStops(rest);
    if rest[Plain(rest)] == '}' {
      HoleAt(v, n);
      return Holds(n);
    }
    b := Classify(rest);
    b := HoldsToo(v, n, b);
  }

  lemma {:induction false} LonePlaceholder(k: string, args: Args)
    requires BraceFree(k)
    ensures Stable(Placeholder(k)) && NoOpenClose(Placeholder(k))
    ensures Substitute(Placeholder(k), args) == if k in args then args[k] else Placeholder(k)
  {
    assert Placeholder(k) == Placeholder(k) + "";
    HoleMatches(Placeholder(k), k);
    SubstituteHole(k, "", args);
  }

  /** "{K{k}": the opening brace starts no placeholder, but with a value that closes first it does. */
  lemma {:induction false} OpenBefore(k: string, args: Args)
    requires BraceFree(k)
    ensures var s := "{" + ("K" + Placeholder(k));
            Stable(s) && Substitute(s, args) == "{" + ("K" + if k in args then args[k] else Placeholder(k))
  {
    hide Hole, Substitute, Stable;
    NoHoleBefore(k);
    LonePlaceholder(k, args);
    SubstitutePlain("K", Placeholder(k), args);
    OpenStays("K" + Placeholder(k), args);
  }

  lemma {:induction false} NoHoleBefore(k: string)
    requires BraceFree(k)
    ensures !Hole("{" + ("K" + Placeholder(k))) && NoOpenClose("K" + Placeholder(k))
  {
    var p := Placeholder(k);
    var s := "{" + ("K" + p);
    assert s[1..] == "K" + p && ("K" + p)[1..] == p;
    LonePlaceholder(k, map[]);
    PlainOfBraceFree("K", p);
    OpensAt(p);
    assert ("K" + p)[1] == p[0];
  }

  lemma {:induction false} OpenStays(rest: string, args: Args)
    requires !Hole("{" + rest)
    ensures Substitute("{" + rest, args) == "{" + Substitute(rest, args)
    ensures NoOpenClose(rest) ==> Stable("{" + rest)
  {
    assert ("{" + rest)[1..] == rest;
  }

  /** "{k}K}": the closing brace ends no placeholder, but after a value that opens last it does. */
  lemma {:induction false} CloseAfter(k: string, args: Args)
    requires BraceFree(k)
    ensures var s := Placeholder(k) + "K}";
            Stable(s) && Substitute(s, args) == (if k in args then args[k] else Placeholder(k)) + "K}"
  {
    var s := Placeholder(k) + "K}";
    HoleMatches(s, k);
    assert s[|k| + 2..] == "K}";
    assert "K}"[1..] == "}" && "}"[1..] == "";
    assert Stable("}") && Stable("K}");
    SubstituteHole(k, "K}", args);
    SubstitutePlain("K", "}", args);
    assert "K" + "}" == "K}";
    assert Substitute("}", args) == "}";
  }

  /** A value with a brace can always be made to show. */
  lemma {:induction false} BracedIsUnsafe(v: string)
    requires !BraceFree(v)
    ensures !Safe(v)
  {
    var k := Repeat(|v| + 1);
    var b := Classify(v);
    match b {
      case ClosesFirst => ClosingIsUnsafe(v, k);
      case Holds(i) =>
        var j := Key(v[i..]);
        LonePlaceholder(k, map[j := ""]);
        LonePlaceholder(k, map[k := v]);
        BetrayedIsUnsafe(Placeholder(k), k, v, j, i);
      case OpensLast(u, q) => OpeningIsUnsafe(v, k, u, q);
    }
  }

  lemma {:induction false} ClosedAt(v: string, n: nat)
    requires n < |v| && v[n] == '}'
    ensures "{" + ("K" + v) == Placeholder("K" + v[..n]) + v[n + 1..]
  {
    assert v == v[..n] + ("}" + v[n + 1..]);
  }

  lemma {:induction false} ClosingMakesHole(v: string) returns (j: string)
    requires Plain(v) < |v| && v[Plain(v)] == '}'
    ensures BraceFree(j) && |j| <= |v|
    ensures var t := "{" + ("K" + v); t[0..] == t && Hole(t) && Key(t) == j
  {
    var n := Plain(v);
    PlainIsBraceFree(v);
    j := "K" + v[..n];
    var t := "{" + ("K" + v);
    hide Plain, Hole, Key;
    ClosedAt(v, n);
    assert StartsWith(t, Placeholder(j));
    HoleMatches(t, j);
    Whole(t);
  }

  lemma {:induction false} ClosingIsUnsafe(v: string, k: string)
    requires Plain(v) < |v| && v[Plain(v)] == '}' && BraceFree(k) && |k| > |v|
    ensures !Safe(v)
  {
    hide Plain, BraceFree, Hole, Key, Safe, Substitute, Stable;
    var j := ClosingMakesHole(v);
    OpenBefore(k, map[j := ""]);
    OpenBefore(k, map[k := v]);
    BetrayedIsUnsafe("{" + ("K" + Placeholder(k)), k, v, j, 0);
  }

  lemma {:induction false} OpeningIsUnsafe(v: string, k: string, u: string, q: string)
    requires v == u + ("{" + q) && BraceFree(q) && BraceFree(k) && |k| > |v|
    ensures !Safe(v)
  {
    hide Plain, Hole, Key, Safe, Substitute, Stable;
    var j := q + "K";
    CloseAfter(k, map[j := ""]);
    CloseAfter(k, map[k := v]);
    var t := v + "K}";
    assert t[|u|..] == Placeholder(j);
    HoleMatches(t[|u|..], j);
    BetrayedIsUnsafe(Placeholder(k) + "K}", k, v, j, |u|);
  }

  /** The walk never shows a value, over all stable sentences and otherwise brace-free arguments, exactly
      when the value has no brace. */
  lemma {:induction false} SafeIffBraceFree(v: string)
    ensures Safe(v) <==> BraceFree(v)
  {
    if BraceFree(v) {
      forall s, args: Args, k, a, b |
        Stable(s) && k in args && args[k] == v && OtherwisePlain(args, k) && Walk(a, args) && Walk(b, args)
        ensures FillInOrder(s, args, a) == FillInOrder(s, args, b)
      {
        WalksAgree(s, args, a);
        WalksAgree(s, args, b);
      }
    } else {
      BracedIsUnsafe(v);
    }
  }

  lemma {:induction false} TooFar(s: string, what: string, with: string)
    requires |what| == |s| > 0 && s != what
    ensures ReplaceAll(s, what, with) == s
  {
    assert s[..|what|] == s;
    TooLongToOccur(s[1..], what, with);
  }

  // ---- Rendering ----

  datatype Sentence = Sentence(title: string, body: string)

  datatype Refusal = UnknownKind | Unfilled(placeholder: string)

  predicate Named(k: string) {
    k != "" && forall i :: 0 <= i < |k| ==> 'a' <= k[i] <= 'z' || k[i] == '_'
  }

  /** The leftmost match of \{[a-z_]+\}, or "". */
  function FindPlaceholder(s: string): string {
    if s == "" then ""
    else if Hole(s) && Named(Key(s)) then Placeholder(Key(s))
    else FindPlaceholder(s[1..])
  }

  /** The placeholders of a sentence that the pattern can see. */
  function NamedKeys(s: string): set<string>
    decreases |s|
  {
    if s == "" then {}
    else if Hole(s) then (if Named(Key(s)) then {Key(s)} else {}) + NamedKeys(AfterHole(s))
    else NamedKeys(s[1..])
  }

  lemma {:induction false} FindAfterPlain(p: string, t: string)
    requires BraceFree(p)
    ensures FindPlaceholder(p + t) == FindPlaceholder(t)
  {
    if p == "" {
      assert p + t == t;
    } else {
      assert (p + t)[1..] == p[1..] + t;
      FindAfterPlain(p[1..], t);
    }
  }

  lemma {:induction false} FindAfterHole(k: string, t: string)
    requires BraceFree(k)
    ensures FindPlaceholder(Placeholder(k) + t) == if Named(k) then Placeholder(k) else FindPlaceholder(t)
  {
    var s := Placeholder(k) + t;
    HoleMatches(s, k);
    assert s[1..] == k + ("}" + t);
    FindAfterPlain(k, "}" + t);
    assert ("}" + t)[1..] == t;
  }

  /** A filled sentence shows no placeholder exactly when each of its named ones had an argument. */
  lemma {:induction false} FilledIffAllGiven(s: string, args: Args)
    requires Stable(s) && BraceFreeArgs(args)
    ensures FindPlaceholder(Substitute(s, args)) == "" <==> NamedKeys(s) <= args.Keys
    decreases |s|
  {
    if s == "" {
    } else if Hole(s) {
      var rest := Substitute(AfterHole(s), args);
      FilledIffAllGiven(AfterHole(s), args);
      if Key(s) in args {
        FindAfterPlain(args[Key(s)], rest);
      } else {
        FindAfterHole(Key(s), rest);
      }
    } else {
      var rest := Substitute(s[1..], args);
      assert ([s[0]] + rest)[1..] == rest;
      if s[0] == '{' {
        FirstBraceOpens(s[1..], args);
        StableAfter(s[1..]);
      }
      FilledIffAllGiven(s[1..], args);
    }
  }

  /** No placeholder spans the space, so looking at the two texts joined is looking at each. */
  lemma {:induction false} JoinedSearchIsSeparate(a: string, b: string)
    ensures FindPlaceholder(a + " " + b) != "" <==> FindPlaceholder(a) != "" || FindPlaceholder(b) != ""
    decreases |a|
  {
    var s := a + " " + b;
    if a == "" {
      assert s[1..] == b;
    } else {
      assert s[1..] == a[1..] + " " + b;
      JoinedSearchIsSeparate(a[1..], b);
      if Hole(a) {
        assert s == Placeholder(Key(a)) + (AfterHole(a) + " " + b);
        HoleMatches(s, Key(a));
      } else if Hole(s) && Named(Key(s)) {
        HoleInsideA(a, b);
      }
    }
  }

  lemma {:induction false} NoSpaceInside(s: string)
    requires Hole(s) && Named(Key(s))
    ensures forall i :: 0 <= i < |Key(s)| + 2 ==> s[i] != ' '
    ensures s[..|Key(s)| + 2] == Placeholder(Key(s))
  {
    var p := Placeholder(Key(s));
    assert s == p + AfterHole(s);
    assert forall i :: 0 <= i < |Key(s)| + 2 ==> s[i] == p[i];
    assert forall i :: 0 <= i < |Key(s)| ==> p[i + 1] == Key(s)[i];
  }

  lemma {:induction false} HoleInsideA(a: string, b: string)
    requires a != "" && Hole(a + " " + b) && Named(Key(a + " " + b))
    ensures Hole(a)
  {
    var s := a + " " + b;
    var k := Key(s);
    assert |a| >= |k| + 2 by {
      assert s[|a|] == ' ';
      NoSpaceInside(s);
    }
    assert a[..|k| + 2] == s[..|k| + 2];
    HoleMatches(a, k);
  }

  // ---- The pattern, character by character ----

  /** An opening brace at i, a closing one at j, and between them one or more of a to z and underscore. */
  ghost predicate ShowsAt(s: string, i: int, j: int) {
    && 0 <= i && i + 1 < j < |s| && s[i] as int == 123 && s[j] as int == 125
    && forall m :: i < m < j ==> 97 <= s[m] as int <= 122 || s[m] as int == 95
  }

  ghost predicate Shows(s: string) { exists i, j :: ShowsAt(s, i, j) }

  /** The match is the leftmost. */
  ghost predicate FirstAt(s: string, i: int, j: int) {
    ShowsAt(s, i, j) && forall a, b :: ShowsAt(s, a, b) ==> i <= a
  }

  lemma {:induction false} ShowsAtFront(s: string, j: int)
    requires ShowsAt(s, 0, j)
    ensures Hole(s) && Named(Key(s)) && Key(s) == s[1..j] && |Key(s)| == j - 1
  {
    var k := s[1..j];
    assert s == Placeholder(k) + s[j + 1..];
    forall m | 0 <= m < |k| ensures 97 <= k[m] as int <= 122 || k[m] as int == 95 {
      assert k[m] == s[m + 1];
    }
    HoleMatches(s, k);
  }

  lemma {:induction false} FrontShows(s: string)
    requires Hole(s) && Named(Key(s))
    ensures ShowsAt(s, 0, |Key(s)| + 1)
    ensures s[..|Key(s)| + 2] == Placeholder(Key(s)) && s[1..|Key(s)| + 1] == Key(s)
  {
    var k := Key(s);
    assert s == Placeholder(k) + AfterHole(s);
    forall m | 0 < m < |k| + 1 ensures s[m] == k[m - 1] {
    }
  }

  lemma {:induction false} ShowsBehind(s: string, n: nat, i: int, j: int)
    requires n <= i && n <= |s|
    ensures ShowsAt(s, i, j) <==> ShowsAt(s[n..], i - n, j - n)
  {
    if ShowsAt(s[n..], i - n, j - n) {
      forall m | i < m < j ensures 97 <= s[m] as int <= 122 || s[m] as int == 95 {
        assert s[m] == s[n..][m - n];
      }
    }
  }

  /** Where no match begins, those behind are all there are. */
  lemma {:induction false} OnlyBehind(s: string)
    requires s != "" && !(Hole(s) && Named(Key(s)))
    ensures forall a, b :: ShowsAt(s, a, b) ==> ShowsAt(s[1..], a - 1, b - 1)
  {
    forall a, b | ShowsAt(s, a, b) ensures ShowsAt(s[1..], a - 1, b - 1) {
      if a == 0 {
        ShowsAtFront(s, b);
      }
      ShowsBehind(s, 1, a, b);
    }
  }

  lemma {:induction false} FirstBehind(s: string, i: int, j: int)
    requires s != "" && FirstAt(s[1..], i, j)
    requires forall a, b :: ShowsAt(s, a, b) ==> ShowsAt(s[1..], a - 1, b - 1)
    ensures FirstAt(s, i + 1, j + 1) && s[i + 1..j + 2] == s[1..][i..j + 1]
  {
    ShowsBehind(s, 1, i + 1, j + 1);
  }

  /** What the search finds is the leftmost match, and it finds nothing exactly when there is none. */
  lemma {:induction false} FindsFirst(s: string) returns (i: int, j: int)
    ensures if FindPlaceholder(s) == "" then !Shows(s) else FirstAt(s, i, j) && FindPlaceholder(s) == s[i..j + 1]
  {
    i, j := 0, 0;
    if s == "" {
    } else if Hole(s) && Named(Key(s)) {
      FrontShows(s);
      j := |Key(s)| + 1;
    } else {
      hide Hole, Named, ShowsAt;
      i, j := FindsFirst(s[1..]);
      OnlyBehind(s);
      if FindPlaceholder(s) != "" {
        FirstBehind(s, i, j);
      }
      i, j := i + 1, j + 1;
    }
  }

  lemma {:induction false} FindsIffShows(s: string)
    ensures FindPlaceholder(s) != "" <==> Shows(s)
  {
    var i, j := FindsFirst(s);
  }

  /** The key stands between the braces of a match. */
  ghost predicate ShowsKey(s: string, k: string) {
    exists i, j :: ShowsAt(s, i, j) && s[i + 1..j] == k
  }

  lemma {:induction false} LaterKey(s: string, n: nat, i: int, j: int)
    requires n <= i && ShowsAt(s, i, j)
    ensures ShowsKey(s[n..], s[i + 1..j])
  {
    ShowsBehind(s, n, i, j);
    assert s[n..][i - n + 1..j - n] == s[i + 1..j];
  }

  lemma {:induction false} EarlierKey(s: string, n: nat, i: int, j: int)
    requires n <= |s| && ShowsAt(s[n..], i, j)
    ensures ShowsKey(s, s[n..][i + 1..j])
  {
    ShowsBehind(s, n, i + n, j + n);
    assert s[n..][i + 1..j] == s[i + n + 1..j + n];
  }

  lemma {:induction false} BehindShowsKey(s: string, n: nat, k: string)
    requires n <= |s| && forall i, j :: ShowsAt(s, i, j) ==> i == 0 || n <= i
    ensures ShowsKey(s, k) <==> (exists j :: ShowsAt(s, 0, j) && s[1..j] == k) || ShowsKey(s[n..], k)
  {
    if ShowsKey(s, k) {
      var i, j :| ShowsAt(s, i, j) && s[i + 1..j] == k;
      if i != 0 {
        LaterKey(s, n, i, j);
      }
    }
    if ShowsKey(s[n..], k) {
      var i, j :| ShowsAt(s[n..], i, j) && s[n..][i + 1..j] == k;
      EarlierKey(s, n, i, j);
    }
  }

  /** No match begins inside a placeholder. */
  lemma {:induction false} NoneInside(s: string, i: int, j: int)
    requires Hole(s) && ShowsAt(s, i, j)
    ensures i == 0 || |Key(s)| + 2 <= i
  {
    var k := Key(s);
    assert s == Placeholder(k) + AfterHole(s);
    forall m | 0 < m < |k| + 1 ensures s[m] == k[m - 1] {
    }
  }

  /** NamedKeys are the keys of the sentence's matches. */
  lemma {:induction false} NamedKeysShow(s: string, k: string)
    ensures k in NamedKeys(s) <==> ShowsKey(s, k)
    decreases |s|
  {
    if s == "" {
    } else if Hole(s) {
      forall i, j | ShowsAt(s, i, j) ensures i == 0 || |Key(s)| + 2 <= i {
        NoneInside(s, i, j);
      }
      NamedKeysShow(AfterHole(s), k);
      BehindShowsKey(s, |Key(s)| + 2, k);
      FrontShowsKey(s, k);
    } else {
      NamedKeysShow(s[1..], k);
      BehindShowsKey(s, 1, k);
      OnlyHolesShow(s);
    }
  }

  lemma {:induction false} OnlyHolesShow(s: string)
    ensures forall j :: ShowsAt(s, 0, j) ==> Hole(s)
  {
    forall j | ShowsAt(s, 0, j) ensures Hole(s) {
      ShowsAtFront(s, j);
    }
  }

  lemma {:induction false} FrontShowsKey(s: string, k: string)
    requires Hole(s)
    ensures (exists j :: ShowsAt(s, 0, j) && s[1..j] == k) <==> Named(Key(s)) && Key(s) == k
  {
    if Named(Key(s)) {
      FrontShows(s);
    }
    forall j | ShowsAt(s, 0, j) ensures Named(Key(s)) && s[1..j] == Key(s) {
      ShowsAtFront(s, j);
    }
  }

  /** Both texts are those of some walk, whatever the arguments. They are returned exactly when neither shows a
      placeholder; otherwise the error names the first one of the two joined. */
  method RenderPush(catalogue: map<string, Sentence>, kind: string, args: Args)
    returns (r: Result<(string, string), Refusal>, ghost order: seq<string>, ghost order': seq<string>)
    ensures kind !in catalogue <==> r == Err(UnknownKind)
    ensures kind in catalogue ==>
              && Walk(order, args) && Walk(order', args)
              && var title := FillInOrder(catalogue[kind].title, args, order);
              var body := FillInOrder(catalogue[kind].body, args, order');
              && (r.Ok? <==> !Shows(title) && !Shows(body)) && (r.Ok? ==> r.value == (title, body))
              && (r.Err? ==> exists i, j :: FirstAt(title + " " + body, i, j)
                                            && r.error == Unfilled((title + " " + body)[i..j + 1]))
    ensures kind in catalogue && BraceFreeArgs(args) ==>
              var sentence := catalogue[kind];
              Stable(sentence.title) && Stable(sentence.body) ==>
                && (r.Ok? <==> forall k :: ShowsKey(sentence.title, k) || ShowsKey(sentence.body, k) ==> k in args)
                && (r.Ok? ==> r.value == (Substitute(sentence.title, args), Substitute(sentence.body, args)))
  {
    order, order' := [], [];
    if kind !in catalogue {
      return Err(UnknownKind), order, order';
    }
    var sentence := catalogue[kind];
    var title, body;
    title, order := FillPlaceholders(sentence.title, args);
    body, order' := FillPlaceholders(sentence.body, args);
    var missing := FindPlaceholder(title + " " + body);
    JoinedSearchIsSeparate(title, body);
    FindsIffShows(title);
    FindsIffShows(body);
    ghost var i, j := FindsFirst(title + " " + body);
    if BraceFreeArgs(args) && Stable(sentence.title) && Stable(sentence.body) {
      AllGiven(sentence, args);
    }
    if missing != "" {
      return Err(Unfilled(missing)), order, order';
    }
    return Ok((title, body)), order, order';
  }

  /** Both texts are finished exactly when every key that a sentence shows is given. */
  lemma {:induction false} AllGiven(sentence: Sentence, args: Args)
    requires Stable(sentence.title) && Stable(sentence.body) && BraceFreeArgs(args)
    ensures FindPlaceholder(Substitute(sentence.title, args)) == "" && FindPlaceholder(Substitute(sentence.body, args)) == "" <==>
            forall k :: ShowsKey(sentence.title, k) || ShowsKey(sentence.body, k) ==> k in args
  {
    FilledIffAllGiven(sentence.title, args);
    FilledIffAllGiven(sentence.body, args);
    forall k: string
      ensures k in NamedKeys(sentence.title) <==> ShowsKey(sentence.title, k)
      ensures k in NamedKeys(sentence.body) <==> ShowsKey(sentence.body, k)
    {
      NamedKeysShow(sentence.title, k);
      NamedKeysShow(sentence.body, k);
    }
  }
}
