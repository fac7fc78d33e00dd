/** web/heating.js, refresh: one refresh cycle at a time, and one follow-up for everyone who asked while it
    ran. */
module HeatRefresh {

  type Caller = nat

  /** How a caller's promise came to resolve: at the end of a cycle, because the page was hidden, or because
      the card was not on the page. */
  datatype Reason = EndOfCycle(cycle: nat) | PageHidden | CardMissing

  datatype Status = Waiting | Riding(cycle: nat) | Resolved(why: Reason)

  /** `waiters` asked during the running cycle, `riders` are resolved when it ends. Cycles are numbered from
      1 as they begin; `begunAt[c]` is how many had begun when caller c asked. */
  datatype State = State(
    inFlight: bool, queued: bool, waiters: seq<Caller>, riders: seq<Caller>,
    begun: nat, ended: nat, begunAt: seq<nat>, status: seq<Status>)

  datatype Event = Refresh(present: bool) | CycleEnds(hidden: bool, present: bool)

  function Initial(): State { State(false, false, [], [], 0, 0, [], []) }

  predicate Enabled(s: State, e: Event) { e.CycleEnds? ==> s.inFlight }

  function SetAll(status: seq<Status>, who: seq<Caller>, to: Status): (r: seq<Status>)
    requires forall i :: 0 <= i < |who| ==> who[i] < |status|
    ensures |r| == |status|
    ensures forall c :: 0 <= c < |r| ==> r[c] == if c in who then to else status[c]
  {
    seq(|status|, c requires 0 <= c < |status| => if c in who then to else status[c])
  }

  /** A cycle begins, and these callers are resolved when it ends. */
  function Begin(s: State, riders: seq<Caller>): State
    requires AllKnown(s, riders)
  {
    s.(inFlight := true, begun := s.begun + 1, riders := riders,
       status := SetAll(s.status, riders, Riding(s.begun + 1)))
  }

  ghost predicate AllKnown(s: State, who: seq<Caller>) {
    forall i :: 0 <= i < |who| ==> who[i] < |s.status|
  }

  /** refresh(), called from outside: the caller gets the next number. */
  function Ask(s: State, present: bool): State {
    var c := |s.status|;
    var t := s.(begunAt := s.begunAt + [s.begun]);
    if !present then t.(status := s.status + [Resolved(CardMissing)])
    else if s.inFlight then t.(queued := true, waiters := s.waiters + [c], status := s.status + [Waiting])
    else Begin(t.(status := s.status + [Waiting]), [c])
  }

  /** finishRefresh(). */
  function Finish(s: State, hidden: bool, present: bool): State
    requires AllKnown(s, s.waiters) && AllKnown(s, s.riders)
  {
    var t := s.(inFlight := false, ended := s.ended + 1, riders := [],
                status := SetAll(s.status, s.riders, Resolved(EndOfCycle(s.begun))));
    if !s.queued then t else
    var u := t.(queued := false, waiters := []);
    if hidden then u.(status := SetAll(u.status, s.waiters, Resolved(PageHidden)))
    else if !present then u.(status := SetAll(u.status, s.waiters, Resolved(CardMissing)))
    else Begin(u, s.waiters)
  }

  function Next(s: State, e: Event): State
    requires Enabled(s, e) && AllKnown(s, s.waiters) && AllKnown(s, s.riders)
  {
    match e
    case Refresh(present) => Ask(s, present)
    case CycleEnds(hidden, present) => Finish(s, hidden, present)
  }

  /** Callers wait or ride exactly as the lists say. Waiting means asked during the running cycle; a rider's
      cycle began after it asked. */
  ghost predicate Inv(s: State) {
    && |s.begunAt| == |s.status|
    && AllKnown(s, s.waiters) && AllKnown(s, s.riders)
    && (forall c :: 0 <= c < |s.status| ==> (c in s.waiters <==> s.status[c] == Waiting))
    && (forall c :: 0 <= c < |s.status| ==> (c in s.riders <==> s.status[c].Riding?))
    && (s.queued <==> s.waiters != [])
    && (s.queued || s.riders != [] ==> s.inFlight)
    && s.begun == s.ended + (if s.inFlight then 1 else 0)
    && forall c :: 0 <= c < |s.status| ==> Fresh(s, c)
  }

  ghost predicate Fresh(s: State, c: Caller)
    requires c < |s.status| == |s.begunAt|
  {
    match s.status[c]
    case Waiting => s.begunAt[c] == s.begun
    case Riding(n) => s.begunAt[c] < n == s.begun
    case Resolved(EndOfCycle(n)) => s.begunAt[c] < n <= s.begun
    case Resolved(_) => s.begunAt[c] <= s.begun
  }

  lemma {:induction false} MissingKeeps(s: State)
    requires Inv(s)
    ensures Inv(Ask(s, false))
  {
    var t := Ask(s, false);
    forall c | 0 <= c < |s.status| ensures Fresh(t, c) {
      assert Fresh(s, c);
    }
  }

  lemma {:induction false} WaitKeeps(s: State)
    requires Inv(s) && s.inFlight
    ensures Inv(Ask(s, true))
  {
    var t := Ask(s, true);
    assert t.waiters == s.waiters + [|s.status|];
    forall c | 0 <= c < |s.status| ensures Fresh(t, c) && (c in t.waiters <==> c in s.waiters) {
      assert Fresh(s, c);
    }
  }

  lemma {:induction false} BeginKeeps(s: State)
    requires Inv(s) && !s.inFlight
    ensures Inv(Ask(s, true))
  {
    var t := Ask(s, true);
    forall c | 0 <= c < |s.status| ensures Fresh(t, c) && t.status[c] == s.status[c] {
      assert Fresh(s, c);
    }
  }

  lemma {:induction false} AskKeeps(s: State, present: bool)
    requires Inv(s)
    ensures Inv(Ask(s, present))
  {
    if !present {
      MissingKeeps(s);
    } else if s.inFlight {
      WaitKeeps(s);
    } else {
      BeginKeeps(s);
    }
  }

  lemma {:induction false} FinishKeeps(s: State, hidden: bool, present: bool)
    requires Inv(s) && s.inFlight
    ensures Inv(Finish(s, hidden, present))
  {
    var t := Finish(s, hidden, present);
    forall c | 0 <= c < |s.status| ensures Fresh(t, c) {
      assert Fresh(s, c);
    }
  }

  function Run(events: seq<Event>): (s: State)
    ensures Inv(s)
  {
    if events == [] then Initial() else
    var s, e := Run(events[..|events| - 1]), events[|events| - 1];
    if !Enabled(s, e) then s else
    match e
    case Refresh(present) => AskKeeps(s, present); Next(s, e)
    case CycleEnds(hidden, present) => FinishKeeps(s, hidden, present); Next(s, e)
  }

  // ---- The card ----

  class Card {
    var refreshInFlight: bool
    var refreshQueued: bool
    var refreshWaiters: seq<Caller>
    var following: seq<Caller>
    var nextCaller: Caller
    ghost var history: State

    ghost predicate Valid()
      reads this
    {
      && Inv(history)
      && history.inFlight == refreshInFlight && history.queued == refreshQueued
      && history.waiters == refreshWaiters && history.riders == following && |history.status| == nextCaller
    }

    constructor ()
      ensures Valid() && history == Initial()
    {
      refreshInFlight, refreshQueued, refreshWaiters, following, nextCaller := false, false, [], [], 0;
      history := Initial();
    }

    /** present: the card's section and grid are on the page. */
    method Refresh(present: bool) returns (caller: Caller)
      requires Valid()
      modifies this
      ensures Valid() && history == Next(old(history), Event.Refresh(present)) && caller == |old(history).status|
    {
      AskKeeps(history, present);
      history := Ask(history, present);
      caller := nextCaller;
      nextCaller := nextCaller + 1;
      if !present {
        return;
      }
      if refreshInFlight {
        refreshQueued := true;
        refreshWaiters := refreshWaiters + [caller];
        return;
      }
      refreshInFlight := true;
      following := [caller];
    }

    method FinishRefresh(hidden: bool, present: bool)
      requires Valid() && refreshInFlight
      modifies this
      ensures Valid() && history == Next(old(history), CycleEnds(hidden, present))
    {
      FinishKeeps(history, hidden, present);
      history := Finish(history, hidden, present);
      refreshInFlight := false;
      following := [];
      if refreshQueued {
        refreshQueued := false;
        var waiters := refreshWaiters;
        refreshWaiters := [];
        if hidden || !present {
          return;
        }
        refreshInFlight := true;
        following := waiters;
      }
    }
  }

  // ---- What every run keeps ----

  /** A caller resolved by a cycle's end waited for a cycle that began after it asked. */
  lemma {:induction false} AnswersAreFresh(events: seq<Event>, c: Caller, n: nat)
    requires c < |Run(events).status| && Run(events).status[c] == Resolved(EndOfCycle(n))
    ensures Run(events).begunAt[c] < n <= Run(events).ended
  {
    var s := Run(events);
    assert Fresh(s, c);
    RidersNotDone(events, c);
  }

  /** A caller resolved at the end of a cycle is so after it ended. */
  ghost predicate Done(s: State, c: Caller)
    requires c < |s.status|
  {
    s.status[c].Resolved? && s.status[c].why.EndOfCycle? ==> s.status[c].why.cycle <= s.ended
  }

  lemma {:induction false} AskDone(s: State, present: bool, c: Caller)
    requires Inv(s) && c < |Ask(s, present).status| && (c < |s.status| ==> Done(s, c))
    ensures Done(Ask(s, present), c)
  {
  }

  lemma {:induction false} FinishDone(s: State, hidden: bool, present: bool, c: Caller)
    requires Inv(s) && s.inFlight && c < |s.status| && Done(s, c)
    ensures Done(Finish(s, hidden, present), c)
  {
  }

  lemma {:induction false} RidersNotDone(events: seq<Event>, c: Caller)
    requires c < |Run(events).status|
    ensures Done(Run(events), c)
  {
    if events != [] {
      var front, e := events[..|events| - 1], events[|events| - 1];
      var s := Run(front);
      if c < |s.status| {
        RidersNotDone(front, c);
      }
      if Enabled(s, e) {
        match e
        case Refresh(present) => AskDone(s, present, c);
        case CycleEnds(hidden, present) => FinishDone(s, hidden, present, c);
      }
    }
  }

  /** When no cycle runs, no caller is left unresolved. */
  lemma {:induction false} NobodyIsLost(events: seq<Event>, c: Caller)
    requires !Run(events).inFlight && c < |Run(events).status|
    ensures Run(events).status[c].Resolved?
  {
    var s := Run(events);
    assert c in s.waiters <==> s.status[c] == Waiting;
    assert c in s.riders <==> s.status[c].Riding?;
  }

  /** The caller has been resolved without a cycle's end. */
  predicate Uncycled(s: State, c: Caller) {
    c < |s.status| && s.status[c].Resolved? && !s.status[c].why.EndOfCycle?
  }

  /** A step leaves resolved callers as they are, and resolves a caller without a cycle exactly when the
      caller itself finds the card missing, or waited when a cycle ended on a hidden page or without the
      card. */
  lemma {:induction false} ResolvedOnce(events: seq<Event>, e: Event, c: Caller)
    requires Enabled(Run(events), e) && c < |Next(Run(events), e).status|
    ensures var s, t := Run(events), Next(Run(events), e);
            && (c < |s.status| && s.status[c].Resolved? ==> t.status[c] == s.status[c])
            && (!Uncycled(s, c) && Uncycled(t, c) <==>
                  || (e.Refresh? && c == |s.status| && !e.present)
                  || (e.CycleEnds? && c in s.waiters && (e.hidden || !e.present)))
  {
    var s := Run(events);
    assert c < |s.status| ==> (c in s.waiters <==> s.status[c] == Waiting) && (c in s.riders <==> s.status[c].Riding?);
  }

  /** A cycle begins exactly when a caller finds none running, or when one ends on a visible page with the card
      on it and a caller waits; so each begins for some caller, who rides it. Only an end ends one. */
  lemma {:induction false} CycleForACaller(events: seq<Event>, e: Event)
    requires Enabled(Run(events), e)
    ensures var s, t := Run(events), Next(Run(events), e);
            && (t.begun > s.begun <==>
                  || (e == Refresh(true) && !s.inFlight)
                  || (e == CycleEnds(false, true) && exists c :: 0 <= c < |s.status| && s.status[c] == Waiting))
            && t.begun <= s.begun + 1 && t.ended == s.ended + (if e.CycleEnds? then 1 else 0)
            && (t.begun > s.begun ==> exists c :: 0 <= c < |t.status| && t.status[c] == Riding(t.begun))
  {
    var s, t := Run(events), Next(Run(events), e);
    if s.waiters != [] {
      assert s.waiters[0] in s.waiters && s.status[s.waiters[0]] == Waiting;
    }
    if t.begun > s.begun {
      assert t.riders[0] in t.riders && t.status[t.riders[0]] == Riding(t.begun);
    }
  }

  lemma {:induction false} NoteStep(s: State, e: Event)
    requires Inv(s) && Enabled(s, e)
    ensures Next(s, e).begunAt == s.begunAt + (if e.Refresh? then [s.begun] else [])
  {
  }

  /** Each caller is one call of refresh, numbered in turn, and what is noted of it is how many cycles had begun
      then. */
  lemma {:induction false} NotedAtItsCall(events: seq<Event>, c: Caller) returns (k: nat)
    requires c < |Run(events).begunAt|
    ensures |Run(events).begunAt| == |Run(events).status|
    ensures k < |events| && events[k].Refresh? && |Run(events[..k]).begunAt| == c
    ensures Run(events).begunAt[c] == Run(events[..k]).begun
  {
    hide Next;
    k := |events| - 1;
    var front := events[..k];
    if Enabled(Run(front), events[k]) {
      NoteStep(Run(front), events[k]);
    }
    if c < |Run(front).begunAt| {
      k := NotedAtItsCall(front, c);
      assert front[..k] == events[..k];
    }
  }

  lemma {:induction false} RunStep(events: seq<Event>, e: Event)
    ensures Run(events + [e]) == if Enabled(Run(events), e) then Next(Run(events), e) else Run(events)
  {
    assert (events + [e])[..|events|] == events;
  }

  lemma {:induction false} FirstAsk()
    ensures Ask(Initial(), true) == State(true, false, [], [0], 1, 0, [0], [Riding(1)])
  {
    assert SetAll([Waiting], [0], Riding(1)) == [Riding(1)];
  }

  lemma {:induction false} TwoAsk()
    ensures Run([Refresh(true), Refresh(true)]) == State(true, true, [1], [0], 1, 0, [0, 1], [Riding(1), Waiting])
  {
    assert [Refresh(true)] == [] + [Refresh(true)];
    assert [Refresh(true), Refresh(true)] == [Refresh(true)] + [Refresh(true)];
    RunStep([], Refresh(true));
    RunStep([Refresh(true)], Refresh(true));
    assert Run([]) == Initial();
    hide Run, Inv, Begin;
    FirstAsk();
  }

  /** A waiter can be answered on a visible page by no new cycle: the card has gone when the cycle ends. */
  lemma {:induction false} MissingCardAnswersStale()
    ensures var s := Run([Refresh(true), Refresh(true), CycleEnds(false, false)]);
            s.status == [Resolved(EndOfCycle(1)), Resolved(CardMissing)] && s.begunAt == [0, 1] && s.begun == 1
  {
    hide Run, Inv;
    var two := [Refresh(true), Refresh(true)];
    TwoAsk();
    assert [Refresh(true), Refresh(true), CycleEnds(false, false)] == two + [CycleEnds(false, false)];
    RunStep(two, CycleEnds(false, false));
  }
}
