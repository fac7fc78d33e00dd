/** web/app.js, the charging goal's editor: debounced saves and removals written one after another. */
module ScheduleWrites {
  import opened Wrappers

  /** A write waiting for its turn, with the edit number it was made at. A removal does not test its. */
  datatype Write<Body> = Save(seqNo: nat, body: Body) | Remove(seqNo: nat)

  /** The editor and what it did. `overtaken`: the newest accepted write is a save that an edit was made
      after while it still waited, and nothing has been accepted since. */
  datatype State<Body> = State(
    timer: bool, saveSeq: nat, queue: seq<Write<Body>>, inFlight: Option<Write<Body>>,
    accepted: seq<Write<Body>>, sent: seq<Write<Body>>, overtaken: bool)

  /** A timer that fires reads the form; None is a form without a day to charge on. A turn is the promise
      chain reaching its next link. */
  datatype Event<Body> = Edit | TimerFires(form: Option<Body>) | Clear | Turn | Answer

  function Initial<B>(): State<B> { State(false, 0, [], None, [], [], false) }

  predicate Enabled<B>(s: State<B>, e: Event<B>) {
    match e
    case TimerFires(_) => s.timer
    case Turn => s.queue != [] && s.inFlight.None?
    case Answer => s.inFlight.Some?
    case _ => true
  }

  function Accept<B>(s: State<B>, w: Write<B>): State<B> {
    s.(queue := s.queue + [w], accepted := s.accepted + [w], overtaken := false)
  }

  /** A save whose number is no longer the newest is skipped. */
  predicate Stale<B>(w: Write<B>, saveSeq: nat) { w.Save? && w.seqNo != saveSeq }

  function Next<B>(s: State<B>, e: Event<B>): State<B>
    requires Enabled(s, e)
  {
    match e
    case Edit =>
      s.(timer := true, saveSeq := s.saveSeq + 1,
         overtaken := s.overtaken || (s.queue != [] && s.queue[|s.queue| - 1].Save?))
    case TimerFires(form) =>
      var t := s.(timer := false);
      if form.None? then t else Accept(t, Save(s.saveSeq, form.value))
    case Clear => Accept(s.(timer := false, saveSeq := s.saveSeq + 1), Remove(s.saveSeq + 1))
    case Turn =>
      var t := s.(queue := s.queue[1..]);
      if Stale(s.queue[0], s.saveSeq) then t
      else t.(inFlight := Some(s.queue[0]), sent := s.sent + [s.queue[0]])
    case Answer => s.(inFlight := None)
  }

  /** The state after a run; an event that cannot happen changes nothing. */
  function Run<B>(events: seq<Event<B>>): State<B> {
    if events == [] then Initial() else
    var s, e := Run(events[..|events| - 1]), events[|events| - 1];
    if Enabled(s, e) then Next(s, e) else s
  }

  // ---- The editor ----

  class Editor<Body> {
    var saveTimer: bool
    var saveSeq: nat
    var writeQueue: seq<Write<Body>>
    var inFlight: Option<Write<Body>>
    ghost var history: State<Body>

    ghost predicate Valid()
      reads this
    {
      history.timer == saveTimer && history.saveSeq == saveSeq && history.queue == writeQueue && history.inFlight == inFlight
    }

    constructor ()
      ensures Valid() && history == Initial()
    {
      saveTimer, saveSeq, writeQueue, inFlight, history := false, 0, [], None, Initial();
    }

    method ScheduleSave()
      requires Valid()
      modifies this
      ensures Valid() && history == Next(old(history), Edit)
    {
      saveSeq := saveSeq + 1;
      saveTimer := true;
      history := Next(history, Edit);
    }

    method DoSave(form: Option<Body>)
      requires Valid() && saveTimer
      modifies this
      ensures Valid() && history == Next(old(history), TimerFires(form))
    {
      saveTimer := false;
      history := Next(history, TimerFires(form));
      if form.None? {
        return;
      }
      writeQueue := writeQueue + [Save(saveSeq, form.value)];
    }

    method ClearClicked()
      requires Valid()
      modifies this
      ensures Valid() && history == Next(old(history), Clear)
    {
      saveTimer := false;
      saveSeq := saveSeq + 1;
      writeQueue := writeQueue + [Remove(saveSeq)];
      history := Next(history, Clear);
    }

    method NextLink()
      requires Valid() && writeQueue != [] && inFlight.None?
      modifies this
      ensures Valid() && history == Next(old(history), Turn)
    {
      history := Next(history, Turn);
      var w := writeQueue[0];
      writeQueue := writeQueue[1..];
      if w.Save? && w.seqNo != saveSeq {
        return;
      }
      inFlight := Some(w);
    }

    method Answered()
      requires Valid() && inFlight.Some?
      modifies this
      ensures Valid() && history == Next(old(history), Answer)
    {
      inFlight := None;
      history := Next(history, Answer);
    }
  }

  // ---- What holds after every run ----

  ghost predicate Increasing<B>(ws: seq<Write<B>>) {
    forall i, j :: 0 <= i < j < |ws| ==> ws[i].seqNo < ws[j].seqNo
  }

  ghost predicate Below<B>(ws: seq<Write<B>>, n: int) {
    forall i :: 0 <= i < |ws| ==> ws[i].seqNo < n
  }

  ghost predicate LastIs<B>(ws: seq<Write<B>>, w: Write<B>) { ws != [] && ws[|ws| - 1] == w }

  /** Accepted writes are numbered by the edits that made them; those that wait are the newest of them. */
  ghost predicate Ordered<B>(s: State<B>) {
    && Increasing(s.accepted)
    && Below(s.accepted, if s.timer then s.saveSeq else s.saveSeq + 1)
    && |s.queue| <= |s.accepted|
    && forall i :: 0 <= i < |s.queue| ==> s.queue[i] == s.accepted[|s.accepted| - |s.queue| + i]
  }

  /** What was sent is older than what waits. */
  ghost predicate SentInOrder<B>(s: State<B>) {
    && Increasing(s.sent)
    && (s.queue != [] ==> Below(s.sent, s.queue[0].seqNo))
    && (s.accepted != [] ==> Below(s.sent, s.accepted[|s.accepted| - 1].seqNo + 1))
    && (s.accepted == [] ==> s.sent == [])
    && (s.inFlight.Some? ==> LastIs(s.sent, s.inFlight.value))
  }

  /** Unless overtaken, the newest accepted write was sent, or waits and will be. */
  ghost predicate NewestKnown<B>(s: State<B>) {
    if s.accepted == [] then !s.overtaken else
    var newest := s.accepted[|s.accepted| - 1];
    s.overtaken <==> if s.queue != [] then Stale(newest, s.saveSeq) else !LastIs(s.sent, newest)
  }

  ghost predicate Inv<B>(s: State<B>) { Ordered(s) && SentInOrder(s) && NewestKnown(s) }

  lemma {:induction false} AcceptKeeps<B>(s: State<B>, w: Write<B>)
    requires Ordered(s) && SentInOrder(s) && Below(s.accepted, w.seqNo) && w.seqNo == s.saveSeq && !s.timer
    ensures Inv(Accept(s, w))
  {
    if s.accepted != [] {
      assert s.accepted[|s.accepted| - 1].seqNo < w.seqNo;
    }
  }

  lemma {:induction false} TurnSends<B>(s: State<B>)
    requires Ordered(s) && SentInOrder(s) && Enabled(s, Turn)
    ensures SentInOrder(Next(s, Turn))
  {
    var k := |s.accepted| - |s.queue|;
    assert s.queue[0] == s.accepted[k];
    if |s.queue| > 1 {
      assert s.queue[1] == s.accepted[k + 1];
    }
  }

  lemma {:induction false} TurnOrders<B>(s: State<B>)
    requires Ordered(s) && Enabled(s, Turn)
    ensures Ordered(Next(s, Turn))
  {
  }

  lemma {:induction false} TurnKeepsNewest<B>(s: State<B>)
    requires Inv(s) && Enabled(s, Turn)
    ensures NewestKnown(Next(s, Turn))
  {
    var newest := s.accepted[|s.accepted| - 1];
    assert s.queue[|s.queue| - 1] == newest;
    if |s.queue| == 1 && Stale(newest, s.saveSeq) && s.sent != [] {
      assert s.sent[|s.sent| - 1].seqNo < newest.seqNo;
    }
  }

  lemma {:induction false} TurnKeeps<B>(s: State<B>)
    requires Inv(s) && Enabled(s, Turn)
    ensures Inv(Next(s, Turn))
  {
    hide Next, Ordered, SentInOrder, NewestKnown;
    TurnOrders(s);
    TurnSends(s);
    TurnKeepsNewest(s);
  }

  lemma {:induction false} EditKeeps<B>(s: State<B>)
    requires Inv(s)
    ensures Inv(Next(s, Edit))
  {
    if s.queue != [] {
      assert s.queue[|s.queue| - 1] == s.accepted[|s.accepted| - 1];
    }
  }

  lemma {:induction false} TimerKeeps<B>(s: State<B>, form: Option<B>)
    requires Inv(s) && s.timer
    ensures Inv(Next(s, TimerFires(form)))
  {
    if form.Some? {
      AcceptKeeps(s.(timer := false), Save(s.saveSeq, form.value));
    }
  }

  function Cleared<B>(s: State<B>): State<B> { s.(timer := false, saveSeq := s.saveSeq + 1) }

  lemma {:induction false} ClearedKeeps<B>(s: State<B>)
    requires Inv(s)
    ensures Ordered(Cleared(s)) && SentInOrder(Cleared(s)) && Below(s.accepted, s.saveSeq + 1)
  {
  }

  lemma {:induction false} ClearKeeps<B>(s: State<B>)
    requires Inv(s)
    ensures Inv(Next(s, Clear))
  {
    ClearedKeeps(s);
    AcceptKeeps(Cleared(s), Remove(s.saveSeq + 1));
  }

  lemma {:induction false} StepKeeps<B>(s: State<B>, e: Event<B>)
    requires Inv(s) && Enabled(s, e)
    ensures Inv(Next(s, e))
  {
    match e {
      case Edit => EditKeeps(s);
      case TimerFires(form) => TimerKeeps(s, form);
      case Clear => ClearKeeps(s);
      case Turn => TurnKeeps(s);
      case Answer => assert Inv(s.(inFlight := None));
    }
  }

  lemma {:induction false} RunKeeps<B>(events: seq<Event<B>>)
    ensures Inv(Run(events))
  {
    if events != [] {
      var front := events[..|events| - 1];
      RunKeeps(front);
      if Enabled(Run(front), events[|events| - 1]) {
        StepKeeps(Run(front), events[|events| - 1]);
      }
    }
  }

  predicate Idle<B>(s: State<B>) { !s.timer && s.queue == [] && s.inFlight.None? }

  /** A save is the last write that waits. */
  predicate SaveWaitsLast<B>(s: State<B>) { s.queue != [] && s.queue[|s.queue| - 1].Save? }

  /** Some edit was made while a save waited last, and nothing has been accepted since. */
  ghost predicate Overtaken<B>(events: seq<Event<B>>) {
    exists k :: 0 <= k < |events| && OvertakesAt(events, k)
  }

  ghost predicate OvertakesAt<B>(events: seq<Event<B>>, k: nat)
    requires k < |events|
  {
    events[k].Edit? && SaveWaitsLast(Run(events[..k])) && Run(events).accepted == Run(events[..k]).accepted
  }

  lemma {:induction false} AcceptedGrows<B>(events: seq<Event<B>>, k: nat)
    requires k <= |events|
    ensures |Run(events[..k]).accepted| <= |Run(events).accepted|
  {
    if k < |events| {
      AcceptedGrows(events[..|events| - 1], k);
      assert events[..|events| - 1][..k] == events[..k];
    } else {
      assert events[..k] == events;
    }
  }

  /** The last event leaves the mark as the others do where it accepts nothing, and clears it otherwise. */
  lemma {:induction false} MarkSteps<B>(events: seq<Event<B>>)
    requires events != []
    ensures var n := |events| - 1;
            var s, t := Run(events[..n]), Run(events);
            && (t.accepted == s.accepted ==>
                  t.overtaken == (s.overtaken || (events[n].Edit? && SaveWaitsLast(s))))
            && (t.accepted != s.accepted ==> !t.overtaken && |t.accepted| > |s.accepted|)
  {
  }

  lemma {:induction false} OvertakesSteps<B>(events: seq<Event<B>>, k: nat)
    requires k + 1 < |events|
    ensures var front := events[..|events| - 1];
            && (Run(events).accepted == Run(front).accepted ==> (OvertakesAt(events, k) <==> OvertakesAt(front, k)))
            && (|Run(events).accepted| > |Run(front).accepted| ==> !OvertakesAt(events, k))
  {
    hide Run;
    var front := events[..|events| - 1];
    assert front[..k] == events[..k] && front[k] == events[k];
    AcceptedGrows(front, k);
  }

  /** The state's mark says just that of the events. */
  lemma {:induction false} MarkIsOvertaken<B>(events: seq<Event<B>>)
    ensures Run(events).overtaken <==> Overtaken(events)
  {
    if events != [] {
      MarkLast(events);
      MarkIsOvertaken(events[..|events| - 1]);
    }
  }

  lemma {:induction false} MarkLast<B>(events: seq<Event<B>>)
    requires events != []
    ensures var front := events[..|events| - 1];
            (Run(front).overtaken <==> Overtaken(front)) ==> (Run(events).overtaken <==> Overtaken(events))
  {
    hide Run, SaveWaitsLast;
    var n := |events| - 1;
    var front := events[..n];
    MarkSteps(events);
    forall k | 0 <= k < n
      ensures Run(events).accepted == Run(front).accepted ==> (OvertakesAt(events, k) <==> OvertakesAt(front, k))
      ensures |Run(events).accepted| > |Run(front).accepted| ==> !OvertakesAt(events, k)
    {
      OvertakesSteps(events, k);
    }
    assert OvertakesAt(events, n) <==>
           events[n].Edit? && SaveWaitsLast(Run(front)) && Run(events).accepted == Run(front).accepted;
  }

  /** In every run that has come to rest, the last write sent is the newest edit accepted or removal made,
      exactly when no edit overtook it. */
  lemma {:induction false} LastSentIsNewest<B>(events: seq<Event<B>>)
    requires var s := Run(events); Idle(s) && s.accepted != []
    ensures var s := Run(events); LastIs(s.sent, s.accepted[|s.accepted| - 1]) <==> !Overtaken(events)
  {
    RunKeeps(events);
    MarkIsOvertaken(events);
  }

  /** A removal that was the newest request is always sent last, whatever is edited meanwhile. */
  lemma {:induction false} NewestRemovalIsSent<B>(events: seq<Event<B>>)
    requires var s := Run(events); Idle(s) && s.accepted != [] && s.accepted[|s.accepted| - 1].Remove?
    ensures var s := Run(events); LastIs(s.sent, s.accepted[|s.accepted| - 1])
  {
    RunKeeps(events);
    NoRemovalOvertaken(events);
  }

  lemma {:induction false} NoRemovalOvertaken<B>(events: seq<Event<B>>)
    ensures var s := Run(events); s.accepted != [] && s.accepted[|s.accepted| - 1].Remove? ==> !s.overtaken
  {
    if events != [] {
      NoRemovalOvertaken(events[..|events| - 1]);
      RunKeeps(events[..|events| - 1]);
    }
  }

  /** Writes go out in the order their edits and clicks were made: a save sent after a removal was edited
      after it, so an older edit never brings a removed schedule back. */
  lemma {:induction false} SavesAfterRemovalAreNewer<B>(events: seq<Event<B>>, i: nat, j: nat)
    requires i < j < |Run(events).sent|
    requires Run(events).sent[i].Remove? && Run(events).sent[j].Save?
    ensures Run(events).sent[i].seqNo < Run(events).sent[j].seqNo
  {
    RunKeeps(events);
  }

  /** In every run, each save that was sent was the first to wait when it went out, after the writes before
      it, and of the newest edit so far. */
  lemma {:induction false} SavesGoOutNewest<B>(events: seq<Event<B>>, k: nat) returns (n: nat)
    requires k < |Run(events).sent| && Run(events).sent[k].Save?
    ensures n < |events| && events[n] == Turn
    ensures var s, w := Run(events[..n]), Run(events).sent[k];
            s.sent == Run(events).sent[..k] && s.queue != [] && s.queue[0] == w && w.seqNo == s.saveSeq
  {
    n := |events| - 1;
    var front := events[..n];
    if k < |Run(front).sent| {
      n := SavesGoOutNewest(front, k);
      assert front[..n] == events[..n];
    }
  }

  lemma {:induction false} RunStep<B>(events: seq<Event<B>>, k: nat)
    requires k < |events|
    ensures var s := Run(events[..k]);
            Run(events[..k + 1]) == if Enabled(s, events[k]) then Next(s, events[k]) else s
  {
    assert events[..k + 1][..k] == events[..k];
  }

  // ---- Exactly what is sent ----

  /** Edits and removals so far: each makes what was made before it old. */
  function Edits<B>(events: seq<Event<B>>): nat {
    if events == [] then 0 else
    Edits(events[..|events| - 1]) + if events[|events| - 1].Edit? || events[|events| - 1].Clear? then 1 else 0
  }

  lemma {:induction false} NumberedByEdits<B>(events: seq<Event<B>>)
    ensures Run(events).saveSeq == Edits(events)
  {
    if events != [] {
      NumberedByEdits(events[..|events| - 1]);
    }
  }

  /** How many accepted writes have had their turn. */
  function Taken<B>(s: State<B>): int { |s.accepted| - |s.queue| }

  /** The event at n is the turn of the i-th accepted write. */
  ghost predicate TurnOf<B>(events: seq<Event<B>>, n: nat, i: nat) {
    n < |events| && events[n].Turn? && Enabled(Run(events[..n]), Turn) && Taken(Run(events[..n])) == i
  }

  /** The turn at n sends the write: it is a removal, or no edit has been made since its own. */
  ghost predicate SendsAt<B>(events: seq<Event<B>>, n: nat, i: nat, w: Write<B>) {
    TurnOf(events, n, i) && (w.Remove? || w.seqNo == Edits(events[..n]))
  }

  lemma {:induction false} SameTurns<B>(events: seq<Event<B>>, n: nat, i: nat, w: Write<B>)
    requires n + 1 < |events|
    ensures TurnOf(events, n, i) <==> TurnOf(events[..|events| - 1], n, i)
    ensures SendsAt(events, n, i, w) <==> SendsAt(events[..|events| - 1], n, i, w)
  {
    assert events[..|events| - 1][..n] == events[..n];
  }

  lemma {:induction false} LastTurn<B>(events: seq<Event<B>>, i: nat)
    requires events != [] && i < |Run(events).accepted|
    ensures var n := |events| - 1; var s, t := Run(events[..n]), Run(events);
            && |s.accepted| <= |t.accepted| && t.accepted[..|s.accepted|] == s.accepted
            && (t.accepted[i] in t.sent <==>
                  (i < |s.accepted| && s.accepted[i] in s.sent) || SendsAt(events, n, i, t.accepted[i]))
  {
    var n := |events| - 1;
    var s, t := Run(events[..n]), Run(events);
    hide Next, Inv;
    RunKeeps(events[..n]);
    NumberedByEdits(events[..n]);
    if Enabled(s, events[n]) {
      StepSends(s, events[n], i);
    }
  }

  lemma {:induction false} StepSends<B>(s: State<B>, e: Event<B>, i: nat)
    requires Inv(s) && Enabled(s, e) && i < |Next(s, e).accepted|
    ensures var t := Next(s, e);
            && |s.accepted| <= |t.accepted| && t.accepted[..|s.accepted|] == s.accepted
            && (t.accepted[i] in t.sent <==>
                  || (i < |s.accepted| && s.accepted[i] in s.sent)
                  || (e.Turn? && Taken(s) == i && !Stale(t.accepted[i], s.saveSeq)))
  {
    hide Inv;
    if e.Turn? {
      TakesFirst(s, i);
    } else if i >= |s.accepted| {
      NewIsUnsent(s, e);
    }
  }

  /** A turn sends the first waiting write, the next accepted one, and no other. */
  lemma {:induction false} TakesFirst<B>(s: State<B>, i: nat)
    requires Inv(s) && Enabled(s, Turn) && i < |s.accepted|
    ensures var w := s.accepted[i];
            w in Next(s, Turn).sent <==> w in s.sent || (Taken(s) == i && !Stale(w, s.saveSeq))
  {
    var w, first := s.accepted[i], s.queue[0];
    assert first == s.accepted[Taken(s)];
    assert w == first <==> i == Taken(s);
  }

  lemma {:induction false} NewIsUnsent<B>(s: State<B>, e: Event<B>)
    requires Inv(s) && Enabled(s, e) && |Next(s, e).accepted| > |s.accepted|
    ensures |Next(s, e).accepted| == |s.accepted| + 1 && Next(s, e).accepted[|s.accepted|] !in s.sent
    ensures Next(s, e).sent == s.sent
  {
    var w := Next(s, e).accepted[|s.accepted|];
    if s.accepted != [] {
      assert s.accepted[|s.accepted| - 1].seqNo < w.seqNo;
    }
  }

  /** In every run an accepted write has been sent exactly when its turn has come and then it was a removal or
      of the newest edit. */
  lemma {:induction false} SentExactly<B>(events: seq<Event<B>>, i: nat)
    requires i < |Run(events).accepted|
    ensures Run(events).accepted[i] in Run(events).sent <==>
            exists n: nat :: SendsAt(events, n, i, Run(events).accepted[i])
  {
    hide Run, Enabled, SendsAt, TurnOf;
    if events == [] {
      NothingAccepted<B>();
    } else {
      var last := |events| - 1;
      var s, t := Run(events[..last]), Run(events);
      LastTurn(events, i);
      forall n: nat | n < last ensures SendsAt(events, n, i, t.accepted[i]) <==> SendsAt(events[..last], n, i, t.accepted[i]) {
        SameTurns(events, n, i, t.accepted[i]);
      }
      OnlyWithin(events, i, t.accepted[i]);
      OnlyWithin(events[..last], i, t.accepted[i]);
      if i < |s.accepted| {
        SentExactly(events[..last], i);
        assert t.accepted[i] == t.accepted[..|s.accepted|][i] == s.accepted[i];
      } else {
        NoTurnYet(events[..last], i, t.accepted[i]);
      }
    }
  }

  lemma {:induction false} NothingAccepted<B>()
    ensures Run<B>([]).accepted == []
  {
  }

  lemma {:induction false} OnlyWithin<B>(events: seq<Event<B>>, i: nat, w: Write<B>)
    ensures forall n: nat :: SendsAt(events, n, i, w) ==> n < |events|
  {
  }

  lemma {:induction false} NoTurnYet<B>(events: seq<Event<B>>, i: nat, w: Write<B>)
    requires i >= |Run(events).accepted|
    ensures forall n: nat :: !SendsAt(events, n, i, w)
  {
    forall n: nat ensures !TurnOf(events, n, i) {
      if n < |events| {
        AcceptedGrows(events, n);
        RunKeeps(events[..n]);
      }
    }
  }

  /** Every accepted write that no longer waits has had its turn. */
  lemma {:induction false} HadItsTurn<B>(events: seq<Event<B>>, i: nat) returns (n: nat)
    requires i < Taken(Run(events))
    ensures TurnOf(events, n, i)
  {
    if events != [] {
      n := |events| - 1;
      if i < Taken(Run(events[..n])) {
        n := HadItsTurn(events[..n], i);
        SameTurns(events, n, i, Remove(0));
      }
    }
  }

  /** At rest every accepted write has had its turn, and those not sent are saves made old by an edit before
      it. So every removal has been sent. */
  lemma {:induction false} EveryRemovalIsSent<B>(events: seq<Event<B>>, i: nat)
    requires Run(events).queue == [] && i < |Run(events).accepted|
    ensures var w := Run(events).accepted[i];
            && (w.Remove? ==> w in Run(events).sent)
            && (w !in Run(events).sent ==> exists n: nat :: TurnOf(events, n, i) && w.seqNo != Edits(events[..n]))
  {
    var n := HadItsTurn(events, i);
    SentExactly(events, i);
    var w := Run(events).accepted[i];
    assert SendsAt(events, n, i, w) <==> w.Remove? || w.seqNo == Edits(events[..n]);
  }

  /** What is sent was accepted, and goes out in the order of the edits and clicks, each write once. */
  lemma {:induction false} SentWasAccepted<B>(events: seq<Event<B>>, i: nat, j: nat)
    requires i < j < |Run(events).sent|
    ensures Run(events).sent[i] in Run(events).accepted && Run(events).sent[j] in Run(events).accepted
    ensures Run(events).sent[i].seqNo < Run(events).sent[j].seqNo
  {
    RunKeeps(events);
    AllSentAccepted(events);
  }

  lemma {:induction false} AllSentAccepted<B>(events: seq<Event<B>>)
    ensures forall w :: w in Run(events).sent ==> w in Run(events).accepted
  {
    if events != [] {
      var front := events[..|events| - 1];
      AllSentAccepted(front);
      RunKeeps(front);
    }
  }

  /** What is accepted, over the events: a removal at each click, and a save where the timer of an edit fires
      on a form with a day to charge on; numbered by the edits and clicks so far. */
  lemma {:induction false} AcceptedAre<B>(events: seq<Event<B>>)
    requires events != []
    ensures var n := |events| - 1; var s, e := Run(events[..n]), events[n];
            Run(events).accepted == s.accepted +
              (if e.Clear? then [Remove(Edits(events))]
               else if e.TimerFires? && s.timer && e.form.Some? then [Save(Edits(events), e.form.value)] else [])
    ensures var n := |events| - 1; var s, e := Run(events[..n]), events[n];
            Run(events).timer <==> e.Edit? || (s.timer && !e.Clear? && !e.TimerFires?)
  {
    NumberedByEdits(events);
    NumberedByEdits(events[..|events| - 1]);
  }

  /** Three edits, the last of them without a day to charge on, while the first one's write is slow. */
  function DroppingRun(): seq<Event<int>> {
    [Edit, TimerFires(Some(1)), Turn, Edit, TimerFires(Some(2)), Edit, TimerFires(None), Answer, Turn]
  }

  lemma {:induction false} DroppingStep(k: nat)
    requires k < 9
    ensures var e := DroppingRun(); var s := Run(e[..k]);
            Run(e[..k + 1]) == if Enabled(s, e[k]) then Next(s, e[k]) else s
  {
    RunStep(DroppingRun(), k);
  }

  lemma {:induction false} DroppingStarts()
    ensures Run(DroppingRun()[..5]) ==
            State(false, 2, [Save(2, 2)], Some(Save(1, 1)), [Save(1, 1), Save(2, 2)], [Save(1, 1)], false)
  {
    var e := DroppingRun();
    assert Run(e[..0]) == Initial();
    hide Run;
    DroppingStep(0);
    DroppingStep(1);
    DroppingStep(2);
    DroppingStep(3);
    DroppingStep(4);
    assert Run(e[..1]) == State(true, 1, [], None, [], [], false);
    assert Run(e[..2]) == State(false, 1, [Save(1, 1)], None, [Save(1, 1)], [], false);
    assert Run(e[..3]) == State(false, 1, [], Some(Save(1, 1)), [Save(1, 1)], [Save(1, 1)], false);
    assert Run(e[..4]) == State(true, 2, [], Some(Save(1, 1)), [Save(1, 1)], [Save(1, 1)], false);
  }

  /** An edit can overtake: a save waits behind a slow one, the next edit has no day to charge on, and the
      waiting save is dropped although nothing replaces it. */
  lemma {:induction false} InvalidEditDropsASave()
    ensures var s := Run(DroppingRun());
            Idle(s) && s.accepted == [Save(1, 1), Save(2, 2)] && s.sent == [Save(1, 1)]
  {
    hide Run;
    var e := DroppingRun();
    assert e[..9] == e;
    DroppingStarts();
    DroppingStep(5);
    DroppingStep(6);
    DroppingStep(7);
    DroppingStep(8);
    assert Run(e[..6]) ==
      State(true, 3, [Save(2, 2)], Some(Save(1, 1)), [Save(1, 1), Save(2, 2)], [Save(1, 1)], true);
    assert Run(e[..7]) ==
      State(false, 3, [Save(2, 2)], Some(Save(1, 1)), [Save(1, 1), Save(2, 2)], [Save(1, 1)], true);
    assert Run(e[..8]) == State(false, 3, [Save(2, 2)], None, [Save(1, 1), Save(2, 2)], [Save(1, 1)], true);
  }
}
