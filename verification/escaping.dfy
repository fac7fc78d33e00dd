/** web/plan.js and web/energy-history.js: two ways of making text safe inside HTML. */
module Escaping {

  /** Every c in s replaced by r: a JavaScript replace with a one-character global pattern. */
  function ReplaceChar(s: string, c: char, r: string): string {
    if s == [] then [] else (if s[0] == c then r else [s[0]]) + ReplaceChar(s[1..], c, r)
  }

  /** Five replacements, one after another, as web/plan.js makes them. */
  function EscapeChained(s: string): string {
    var s1 := ReplaceChar(s, '&', "&amp;");
    var s2 := ReplaceChar(s1, '<', "&lt;");
    var s3 := ReplaceChar(s2, '>', "&gt;");
    var s4 := ReplaceChar(s3, '\"', "&quot;");
    ReplaceChar(s4, '\'', "&#39;")
  }

  function Entity(c: char): string {
    match c
    case '&' => "&amp;"
    case '<' => "&lt;"
    case '>' => "&gt;"
    case '\"' => "&quot;"
    case '\'' => "&#39;"
    case _ => [c]
  }

  /** One pass, each character looked up on its own, as web/energy-history.js does it. */
  function EscapeOnce(s: string): string {
    if s == [] then [] else Entity(s[0]) + EscapeOnce(s[1..])
  }

  lemma {:induction false} EscapeOne(c: char)
    ensures EscapeOnce([c]) == Entity(c)
  {
    assert [c][1..] == [];
  }

  /** The five characters that mean something in HTML become the references to them, and no other changes. */
  lemma {:induction false} FiveReferences(c: char)
    ensures EscapeOnce(['&']) == "&amp;" && EscapeOnce(['<']) == "&lt;" && EscapeOnce(['>']) == "&gt;"
    ensures EscapeOnce(['\"']) == "&quot;" && EscapeOnce(['\'']) == "&#39;"
    ensures c != '&' && c != '<' && c != '>' && c != '\"' && c != '\'' ==> EscapeOnce([c]) == [c]
  {
    EscapeOne('&');
    EscapeOne('<');
    EscapeOne('>');
    EscapeOne('\"');
    EscapeOne('\'');
    EscapeOne(c);
  }

  /** Escaping goes character by character. */
  lemma {:induction false} EscapeJoins(s: string, t: string)
    ensures EscapeOnce(s + t) == EscapeOnce(s) + EscapeOnce(t)
  {
    hide Entity;
    if s == [] {
      assert s + t == t;
    } else {
      EscapeJoins(s[1..], t);
      assert (s + t)[1..] == s[1..] + t;
      Regroup(Entity(s[0]), EscapeOnce(s[1..]), EscapeOnce(t));
    }
  }

  lemma {:induction false} Regroup(a: string, b: string, c: string)
    ensures a + (b + c) == (a + b) + c
  {
  }

  lemma {:induction false} ReplaceJoins(s: string, t: string, c: char, r: string)
    ensures ReplaceChar(s + t, c, r) == ReplaceChar(s, c, r) + ReplaceChar(t, c, r)
  {
    if s == [] {
      assert s + t == t;
    } else {
      ReplaceJoins(s[1..], t, c, r);
      assert (s + t)[1..] == s[1..] + t;
      Regroup(if s[0] == c then r else [s[0]], ReplaceChar(s[1..], c, r), ReplaceChar(t, c, r));
    }
  }

  lemma {:induction false} ChainJoins(s: string, t: string)
    ensures EscapeChained(s + t) == EscapeChained(s) + EscapeChained(t)
  {
    var s1, t1 := ReplaceChar(s, '&', "&amp;"), ReplaceChar(t, '&', "&amp;");
    ReplaceJoins(s, t, '&', "&amp;");
    var s2, t2 := ReplaceChar(s1, '<', "&lt;"), ReplaceChar(t1, '<', "&lt;");
    ReplaceJoins(s1, t1, '<', "&lt;");
    var s3, t3 := ReplaceChar(s2, '>', "&gt;"), ReplaceChar(t2, '>', "&gt;");
    ReplaceJoins(s2, t2, '>', "&gt;");
    var s4, t4 := ReplaceChar(s3, '\"', "&quot;"), ReplaceChar(t3, '\"', "&quot;");
    ReplaceJoins(s3, t3, '\"', "&quot;");
    ReplaceJoins(s4, t4, '\'', "&#39;");
  }

  lemma {:induction false} NothingToReplace(s: string, c: char, r: string)
    requires c !in s
    ensures ReplaceChar(s, c, r) == s
  {
    if s != [] {
      NothingToReplace(s[1..], c, r);
    }
  }

  lemma {:induction false} ReplaceOne(c: char, d: char, r: string)
    ensures ReplaceChar([c], d, r) == if c == d then r else [c]
  {
    assert ReplaceChar([c][1..], d, r) == [];
  }

  /** What the passes do to a piece they do not touch. */
  lemma {:induction false} Untouched(s: string)
    requires '<' !in s && '>' !in s && '\"' !in s && '\'' !in s
    ensures ReplaceChar(ReplaceChar(ReplaceChar(ReplaceChar(s, '<', "&lt;"), '>', "&gt;"), '\"', "&quot;"), '\'', "&#39;") == s
  {
    NothingToReplace(s, '<', "&lt;");
    NothingToReplace(s, '>', "&gt;");
    NothingToReplace(s, '\"', "&quot;");
    NothingToReplace(s, '\'', "&#39;");
  }

  lemma {:induction false} UntouchedLater(s: string)
    requires '>' !in s && '\"' !in s && '\'' !in s
    ensures ReplaceChar(s, '>', "&gt;") == s
    ensures ReplaceChar(s, '\"', "&quot;") == s
    ensures ReplaceChar(s, '\'', "&#39;") == s
  {
    NothingToReplace(s, '>', "&gt;");
    NothingToReplace(s, '\"', "&quot;");
    NothingToReplace(s, '\'', "&#39;");
  }

  lemma {:induction false} ChainOfOne(c: char)
    ensures EscapeChained([c]) == Entity(c)
  {
    ReplaceOne(c, '&', "&amp;");
    ReplaceOne(c, '<', "&lt;");
    ReplaceOne(c, '>', "&gt;");
    ReplaceOne(c, '\"', "&quot;");
    ReplaceOne(c, '\'', "&#39;");
    match c
    case '&' => Untouched("&amp;");
    case '<' => UntouchedLater("&lt;");
    case '>' => UntouchedLater("&gt;");
    case '\"' => NothingToReplace("&quot;", '\'', "&#39;");
    case _ =>
  }

  /** The chain and the single pass give the same text, for every string. */
  lemma {:induction false} ChainIsOnePass(s: string)
    ensures EscapeChained(s) == EscapeOnce(s)
  {
    if s != [] {
      ChainIsOnePass(s[1..]);
      assert s == [s[0]] + s[1..];
      ChainJoins([s[0]], s[1..]);
      ChainOfOne(s[0]);
    }
  }

  // ---- what may come out, and back ----

  predicate StartsWith(t: string, p: string) {
    |p| <= |t| && forall i :: 0 <= i < |p| ==> t[i] == p[i]
  }

  /** The character whose entity begins t, and that entity's length. */
  function Named(t: string): (char, nat) {
    if StartsWith(t, "&amp;") then ('&', 5)
    else if StartsWith(t, "&lt;") then ('<', 4)
    else if StartsWith(t, "&gt;") then ('>', 4)
    else if StartsWith(t, "&quot;") then ('\"', 6)
    else if StartsWith(t, "&#39;") then ('\'', 5)
    else (' ', 0)
  }

  predicate BareMark(c: char) { c == '<' || c == '>' || c == '\"' || c == '\'' }

  /** Text that holds no markup: none of the four, and every & starts one of the five entities. */
  ghost predicate Inert(t: string) {
    forall i :: 0 <= i < |t| ==> !BareMark(t[i]) && (t[i] == '&' ==> Named(t[i..]).1 > 0)
  }

  function Decode(t: string): string
    decreases |t|
  {
    if t == [] then [] else
    var (c, n) := Named(t);
    if n > 0 then [c] + Decode(t[n..]) else [t[0]] + Decode(t[1..])
  }

  lemma {:induction false} EntityIsNamed(c: char, rest: string)
    ensures if c == '&' || BareMark(c) then Named(Entity(c) + rest) == (c, |Entity(c)|)
            else Named(Entity(c) + rest).1 == 0
  {
    var t := Entity(c) + rest;
    assert t[..|Entity(c)|] == Entity(c);
    assert t[0] == Entity(c)[0];
    if c == '&' || BareMark(c) {
      assert t[1] == Entity(c)[1];
      assert t[2] == Entity(c)[2];
    }
  }

  lemma {:induction false} DecodeAhead(c: char, rest: string)
    ensures Decode(Entity(c) + rest) == [c] + Decode(rest)
  {
    EntityIsNamed(c, rest);
    assert (Entity(c) + rest)[|Entity(c)|..] == rest;
    assert |Entity(c)| > 0;
  }

  /** Reading the entities back gives the text that was escaped. */
  lemma {:induction false} DecodeEscaped(s: string)
    ensures Decode(EscapeOnce(s)) == s
  {
    if s != [] {
      var rest := EscapeOnce(s[1..]);
      DecodeEscaped(s[1..]);
      DecodeAhead(s[0], rest);
      assert s == [s[0]] + s[1..];
    }
  }

  lemma {:induction false} EscapingIsInjective(s: string, t: string)
    requires EscapeChained(s) == EscapeChained(t)
    ensures s == t
  {
    ChainIsOnePass(s);
    ChainIsOnePass(t);
    DecodeEscaped(s);
    DecodeEscaped(t);
  }

  lemma {:induction false} NamedAhead(e: string, rest: string)
    requires Inert(rest) && e != [] && Named(e + rest).1 > 0
    requires forall i :: 1 <= i < |e| ==> e[i] != '&'
    requires forall i :: 0 <= i < |e| ==> !BareMark(e[i])
    ensures Inert(e + rest)
  {
    var t := e + rest;
    forall i | 0 <= i < |t| ensures !BareMark(t[i]) && (t[i] == '&' ==> Named(t[i..]).1 > 0) {
      if i == 0 {
        assert t[0..] == t;
      } else if i >= |e| {
        assert t[i..] == rest[i - |e|..];
        assert t[i] == rest[i - |e|];
      }
    }
  }

  /** Escaped text is inert. */
  lemma {:induction false} EscapedIsInert(s: string)
    ensures Inert(EscapeOnce(s))
  {
    if s != [] {
      EscapedIsInert(s[1..]);
      var rest := EscapeOnce(s[1..]);
      var e := Entity(s[0]);
      EntityIsNamed(s[0], rest);
      if s[0] == '&' || BareMark(s[0]) {
        NamedAhead(e, rest);
      } else {
        PlainAhead(s[0], rest);
      }
    }
  }

  lemma {:induction false} PlainAhead(c: char, rest: string)
    requires Inert(rest) && c != '&' && !BareMark(c)
    ensures Inert([c] + rest)
  {
    var t := [c] + rest;
    forall i | 0 <= i < |t| ensures !BareMark(t[i]) && (t[i] == '&' ==> Named(t[i..]).1 > 0) {
      if i > 0 {
        assert t[i..] == rest[i - 1..];
      }
    }
  }

  lemma {:induction false} InertTail(t: string, n: nat)
    requires Inert(t) && n <= |t|
    ensures Inert(t[n..])
  {
    forall i | 0 <= i < |t| - n
      ensures !BareMark(t[n..][i]) && (t[n..][i] == '&' ==> Named(t[n..][i..]).1 > 0)
    {
      assert t[n..][i..] == t[n + i..];
    }
  }

  lemma {:induction false} NamedIsEntity(t: string)
    requires Named(t).1 > 0
    ensures Named(t).1 <= |t| && Entity(Named(t).0) + t[Named(t).1..] == t
  {
    assert Entity(Named(t).0) == t[..Named(t).1];
  }

  lemma {:induction false} PlainIsItself(t: string)
    requires t != "" && Inert(t) && Named(t).1 == 0
    ensures Entity(t[0]) == [t[0]]
  {
    assert t[0..] == t;
  }

  lemma {:induction false} EscapeAhead(c: char, s: string)
    ensures EscapeOnce([c] + s) == Entity(c) + EscapeOnce(s)
  {
    assert ([c] + s)[1..] == s;
  }

  /** And all inert text is escaped text: escaping gives back what was decoded. */
  lemma {:induction false} EscapeDecoded(t: string)
    requires Inert(t)
    ensures EscapeOnce(Decode(t)) == t
    decreases |t|
  {
    if t != [] {
      var (c, n) := Named(t);
      if n > 0 {
        InertTail(t, n);
        EscapeDecoded(t[n..]);
        NamedIsEntity(t);
        EscapeAhead(c, Decode(t[n..]));
      } else {
        InertTail(t, 1);
        EscapeDecoded(t[1..]);
        PlainIsItself(t);
        EscapeAhead(t[0], Decode(t[1..]));
      }
    }
  }

  /** A text is the escape of something exactly when it is inert. */
  lemma {:induction false} EscapesAreTheInertTexts(t: string)
    ensures (exists s :: EscapeChained(s) == t) <==> Inert(t)
  {
    if s :| EscapeChained(s) == t {
      ChainIsOnePass(s);
      EscapedIsInert(s);
    }
    if Inert(t) {
      EscapeDecoded(t);
      ChainIsOnePass(Decode(t));
    }
  }
}
