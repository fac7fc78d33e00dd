/** web/app.js, sendSoc: the charge level an operator sets, one write in flight, the newest sent last. */
module SocWrites {
  import opened Wrappers

  /** A write and the revision it was sent at. */
  datatype Sent = Sent(level: int, revision: nat)

  /** `chosen` lists every level the operator chose, `sent` every write, `shown` the levels the page called
      saved and `refused` those it called not confirmed. */
  datatype State = State(
    pending: Option<int>, saving: Option<Sent>, chosen: seq<int>, sent: seq<Sent>, shown: seq<Sent>,
    refused: seq<Sent>)

  datatype Event = Choose(level: int) | Answer(ok: bool)

  predicate Enabled(s: State, e: Event) { e.Answer? ==> s.saving.Some? }

  /** sendSoc: nothing while a write is in flight or nothing is pending. */
  function Send(s: State): State {
    if s.saving.Some? || s.pending.None? then s else
    var w := Sent(s.pending.value, |s.chosen|);
    s.(pending := None, saving := Some(w), sent := s.sent + [w])
  }

  /** What the page says of an answer: nothing once another level has been chosen. */
  function Told(s: State, w: Sent, ok: bool): State {
    if w.revision != |s.chosen| then s
    else if ok then s.(shown := s.shown + [w]) else s.(refused := s.refused + [w])
  }

  function Next(s: State, e: Event): State
    requires Enabled(s, e)
  {
    match e
    case Choose(level) =>
      if level < 0 || level > 100 then s
      else Send(s.(pending := Some(level), chosen := s.chosen + [level]))
    case Answer(ok) =>
      var w := s.saving.value;
      Send(Told(s, w, ok).(saving := None))
  }

  function Run(events: seq<Event>): State {
    if events == [] then State(None, None, [], [], [], []) else
    var s, e := Run(events[..|events| - 1]), events[|events| - 1];
    if Enabled(s, e) then Next(s, e) else s
  }

  class Slider {
    var socPending: Option<int>
    var socSaving: bool
    var socRevision: nat
    var inFlight: Sent
    ghost var history: State

    ghost predicate Valid()
      reads this
    {
      && history.pending == socPending
      && history.saving == (if socSaving then Some(inFlight) else None)
      && |history.chosen| == socRevision
    }

    constructor ()
      ensures Valid() && history == State(None, None, [], [], [], [])
    {
      socPending, socSaving, socRevision, inFlight := None, false, 0, Sent(0, 0);
      history := State(None, None, [], [], [], []);
    }

    method SendSoc()
      requires Valid()
      modifies this
      ensures Valid() && history == Send(old(history))
    {
      history := Send(history);
      if socSaving || socPending.None? {
        return;
      }
      inFlight := Sent(socPending.value, socRevision);
      socPending := None;
      socSaving := true;
    }

    method Change(level: int)
      requires Valid()
      modifies this
      ensures Valid() && history == Next(old(history), Choose(level))
    {
      if level < 0 || level > 100 {
        return;
      }
      socRevision := socRevision + 1;
      socPending := Some(level);
      history := history.(pending := Some(level), chosen := history.chosen + [level]);
      SendSoc();
    }

    /** saved, refused: what the page says of the level. */
    method Answered(ok: bool) returns (saved: bool, refused: bool)
      requires Valid() && socSaving
      modifies this
      ensures Valid() && history == Next(old(history), Answer(ok))
      ensures saved <==> |history.shown| > |old(history).shown|
      ensures refused <==> |history.refused| > |old(history).refused|
    {
      saved, refused := false, false;
      if inFlight.revision == socRevision {
        saved, refused := ok, !ok;
      }
      history := Told(history, inFlight, ok).(saving := None);
      socSaving := false;
      SendSoc();
    }
  }

  /** Every write carries the level chosen at its revision, and revisions go up. */
  ghost predicate SentInOrder(s: State) {
    && (forall i :: 0 <= i < |s.sent| ==>
          0 < s.sent[i].revision <= |s.chosen| && s.sent[i].level == s.chosen[s.sent[i].revision - 1])
    && (forall i, j :: 0 <= i < j < |s.sent| ==> s.sent[i].revision < s.sent[j].revision)
    && (s.saving.Some? ==> s.sent != [] && s.saving.value == s.sent[|s.sent| - 1])
  }

  /** A level still pending is the newest chosen; with none pending the newest was sent. */
  ghost predicate NewestKnown(s: State) {
    if s.chosen == [] then s.pending.None? && s.sent == []
    else if s.pending.Some? then
      && s.pending.value == s.chosen[|s.chosen| - 1]
      && (s.sent != [] ==> s.sent[|s.sent| - 1].revision < |s.chosen|)
    else s.sent != [] && s.sent[|s.sent| - 1].revision == |s.chosen|
  }

  ghost predicate Inv(s: State) {
    SentInOrder(s) && NewestKnown(s) && (s.pending.Some? ==> s.saving.Some?)
  }

  lemma {:induction false} SendKeeps(s: State)
    requires SentInOrder(s) && NewestKnown(s)
    ensures Inv(Send(s))
  {
  }

  lemma {:induction false} ChooseKeeps(s: State, level: int)
    requires Inv(s) && 0 <= level <= 100
    ensures Inv(Next(s, Choose(level)))
  {
    SendKeeps(s.(pending := Some(level), chosen := s.chosen + [level]));
  }

  lemma {:induction false} AnswerKeeps(s: State, ok: bool)
    requires Inv(s) && s.saving.Some?
    ensures Inv(Next(s, Answer(ok)))
  {
    var w := s.saving.value;
    SendKeeps(Told(s, w, ok).(saving := None));
  }

  lemma {:induction false} StepKeeps(s: State, e: Event)
    requires Inv(s) && Enabled(s, e)
    ensures Inv(Next(s, e))
  {
    match e
    case Choose(level) =>
      if 0 <= level <= 100 {
        ChooseKeeps(s, level);
      }
    case Answer(ok) => AnswerKeeps(s, ok);
  }

  lemma {:induction false} RunKeeps(events: seq<Event>)
    ensures Inv(Run(events))
  {
    if events != [] {
      var front := events[..|events| - 1];
      RunKeeps(front);
      if Enabled(Run(front), events[|events| - 1]) {
        StepKeeps(Run(front), events[|events| - 1]);
      }
    }
  }

  /** At rest, the last write sent is the newest level chosen. */
  lemma {:induction false} NewestLevelIsSentLast(events: seq<Event>)
    requires Run(events).saving.None? && Levels(events) != []
    ensures var s, levels := Run(events), Levels(events);
            s.sent != [] && s.sent[|s.sent| - 1] == Sent(levels[|levels| - 1], |levels|)
  {
    RunKeeps(events);
    ChosenAreTheEvents(events);
  }

  /** The levels from 0 to 100 among the choices, in turn. */
  function Levels(events: seq<Event>): seq<int> {
    if events == [] then [] else
    var e := events[|events| - 1];
    Levels(events[..|events| - 1]) + if e.Choose? && 0 <= e.level <= 100 then [e.level] else []
  }

  lemma {:induction false} ChosenAreTheEvents(events: seq<Event>)
    ensures Run(events).chosen == Levels(events)
  {
    if events != [] {
      ChosenAreTheEvents(events[..|events| - 1]);
    }
  }

  /** In every run an event calls a level saved exactly when it confirms the write that carries the newest
      choice, and not confirmed exactly when it refuses that write. */
  lemma {:induction false} OnlyNewestIsShown(events: seq<Event>, e: Event)
    requires Enabled(Run(events), e)
    ensures var s, levels := Run(events), Levels(events);
            var newest := if levels == [] then None else Some(Sent(levels[|levels| - 1], |levels|));
            var told := if e.Answer? && newest.Some? && s.saving == newest then [newest.value] else [];
            && Next(s, e).shown == s.shown + (if e == Answer(true) then told else [])
            && Next(s, e).refused == s.refused + (if e == Answer(false) then told else [])
  {
    RunKeeps(events);
    ChosenAreTheEvents(events);
  }
}
