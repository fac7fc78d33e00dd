/** web/plan-prefs.js, prefsQueue: preference writes one after another, a newer change to the same
    preferences replacing one that still waits. */
module PrefsQueue {
  import opened Wrappers
  import opened Ordering

  /** UTF-16 code units. */
  type Name = seq<int>
  type Change<V> = map<Name, V>

  const COMMA: int := 44

  // ---- keys(change) ----

  /** Array.join with its default comma. */
  function Join(list: seq<Name>): Name {
    if list == [] then [] else if |list| == 1 then list[0] else list[0] + [COMMA] + Join(list[1..])
  }

  function KeysOf<V>(change: Change<V>): Name { Join(Sorted(change.Keys)) }

  /** A name the join cannot confuse with another list. */
  predicate PlainName(n: Name) { n != [] && COMMA !in n }

  ghost predicate PlainKeys<V>(change: Change<V>) { forall k :: k in change ==> PlainName(k) }

  lemma {:induction false} FirstName(a: Name, x: Name, b: Name, y: Name)
    requires COMMA !in a && COMMA !in b
    requires x == [] || x[0] == COMMA
    requires y == [] || y[0] == COMMA
    requires a + x == b + y
    ensures a == b && x == y
  {
    assert x != [] ==> (a + x)[|a|] == x[0];
    assert y != [] ==> (b + y)[|b|] == y[0];
    assert forall i :: 0 <= i < |a| ==> (a + x)[i] == a[i];
    assert forall i :: 0 <= i < |b| ==> (b + y)[i] == b[i];
    assert |a| == |b|;
    assert a == (a + x)[..|a|] && b == (b + y)[..|b|];
    assert x == (a + x)[|a|..] && y == (b + y)[|b|..];
  }

  lemma {:induction false} JoinOfNames(list: seq<Name>)
    requires forall k :: k in list ==> PlainName(k)
    ensures Join(list) == [] <==> list == []
  {
    if list != [] {
      assert list[0] in list;
    }
  }

  lemma {:induction false} JoinInjective(a: seq<Name>, b: seq<Name>)
    requires forall k :: k in a || k in b ==> PlainName(k)
    requires Join(a) == Join(b)
    ensures a == b
    decreases |a|
  {
    JoinOfNames(a);
    JoinOfNames(b);
    if a != [] {
      var x := if |a| == 1 then [] else [COMMA] + Join(a[1..]);
      var y := if |b| == 1 then [] else [COMMA] + Join(b[1..]);
      assert a[0] in a && b[0] in b;
      assert Join(a) == a[0] + x && Join(b) == b[0] + y;
      FirstName(a[0], x, b[0], y);
      if |a| > 1 {
        assert x[1..] == Join(a[1..]) && y[1..] == Join(b[1..]);
        JoinInjective(a[1..], b[1..]);
      }
      assert a == [a[0]] + a[1..] && b == [b[0]] + b[1..];
    }
  }

  /** Over plain names the joined keys are the same exactly when the key sets are. */
  lemma {:induction false} KeysOfIsTheKeySet<V>(x: Change<V>, y: Change<V>)
    requires PlainKeys(x) && PlainKeys(y)
    ensures KeysOf(x) == KeysOf(y) <==> x.Keys == y.Keys
  {
    var a, b := Sorted(x.Keys), Sorted(y.Keys);
    if KeysOf(x) == KeysOf(y) {
      forall k | k in a || k in b ensures PlainName(k) {
        assert k in Elements(a) || k in Elements(b);
      }
      JoinInjective(a, b);
    }
  }

  // ---- Applying changes ----

  /** The box after writing the changes in order. */
  function ApplyAll<V>(box: Change<V>, changes: seq<Change<V>>): Change<V> {
    if changes == [] then box else ApplyAll(box, changes[..|changes| - 1]) + changes[|changes| - 1]
  }

  lemma {:induction false} ApplyOneMore<V>(box: Change<V>, changes: seq<Change<V>>, c: Change<V>)
    ensures ApplyAll(box, changes + [c]) == ApplyAll(box, changes) + c
  {
    assert (changes + [c])[..|changes|] == changes;
  }

  lemma {:induction false} ApplyFirst<V>(box: Change<V>, changes: seq<Change<V>>)
    requires changes != []
    ensures ApplyAll(box, changes) == ApplyAll(box + changes[0], changes[1..])
  {
    var n := |changes| - 1;
    if n > 0 {
      ApplyFirst(box, changes[..n]);
      assert changes[..n][1..] == changes[1..][..n - 1];
    }
  }

  /** Dropping a change for the next is safe on every box exactly when the next sets all it set. */
  lemma {:induction false} MergeIsSafe<V>(x: Change<V>, y: Change<V>)
    ensures (forall box: Change<V> :: box + x + y == box + y) <==> x.Keys <= y.Keys
  {
    if forall box: Change<V> :: box + x + y == box + y {
      assert (map[] + x + y).Keys == (map[] + y).Keys;
    }
  }

  lemma {:induction false} SortedIs(list: seq<Name>, s: set<Name>)
    requires StrictlySorted(list) && Elements(list) == s
    ensures Sorted(s) == list
  {
    StrictListIsUnique(list, Sorted(s));
  }

  // ---- The queue ----

  type Caller = nat

  datatype Job<V, S> = Job(change: Change<V>, source: S, callers: seq<Caller>)

  /** Where the running job is: taken off the queue, sent, or answered and not yet released. */
  datatype Phase = Picked | Sent | Answered

  /** What a caller's promise became: the answer to this change, or its error. */
  datatype Settlement<V> = Settlement(change: Change<V>, confirmed: bool)

  /** The callers of consecutive jobs are consecutive calls, and each job carries its last caller's change,
      whose keys are those of every change it replaced. */
  ghost predicate Covers<V, S>(jobs: seq<Job<V, S>>, calls: seq<Change<V>>, from: nat)
    decreases |jobs|
  {
    if jobs == [] then from == |calls|
    else CoversOne(jobs[0], calls, from) && Covers(jobs[1..], calls, from + |jobs[0].callers|)
  }

  ghost predicate CoversOne<V, S>(job: Job<V, S>, calls: seq<Change<V>>, from: nat) {
    var n := |job.callers|;
    && n > 0 && from + n <= |calls|
    && (forall i :: 0 <= i < n ==> job.callers[i] == from + i)
    && (forall i :: from <= i < from + n ==> KeysOf(calls[i]) == KeysOf(job.change))
    && job.change == calls[from + n - 1]
  }

  function Changes<V, S>(jobs: seq<Job<V, S>>): (r: seq<Change<V>>)
    ensures |r| == |jobs| && forall i :: 0 <= i < |jobs| ==> r[i] == jobs[i].change
  {
    seq(|jobs|, i requires 0 <= i < |jobs| => jobs[i].change)
  }

  function Copies<T>(x: T, n: nat): (r: seq<T>)
    ensures |r| == n && forall i :: 0 <= i < n ==> r[i] == x
  {
    seq(n, _ => x)
  }

  /** Neighbouring calls that join alike, other than the first two, set no less the second time. The first
      call of all is sent at once, so nothing ever replaces it. */
  ghost predicate Nested<V>(calls: seq<Change<V>>) {
    forall i {:trigger Neighbours(calls, i)} :: 0 < i < |calls| - 1 ==> Neighbours(calls, i)
  }

  ghost predicate Neighbours<V>(calls: seq<Change<V>>, i: nat)
    requires i < |calls| - 1
  {
    KeysOf(calls[i]) == KeysOf(calls[i + 1]) ==> calls[i].Keys <= calls[i + 1].Keys
  }

  /** Caller i got the answer to its own change or to a later one with the same keys. */
  ghost predicate Right<V>(calls: seq<Change<V>>, settled: seq<Settlement<V>>, i: nat)
    requires i < |settled|
  {
    exists d :: i <= d < |calls| && calls[d] == settled[i].change && KeysOf(calls[d]) == KeysOf(calls[i])
  }

  /** Callers are settled in call order, each once and rightly, and the open jobs hold the rest. */
  ghost predicate Consistent<V, S>(jobs: seq<Job<V, S>>, calls: seq<Change<V>>, settled: seq<Settlement<V>>) {
    && Covers(jobs, calls, |settled|)
    && forall i :: 0 <= i < |settled| ==> Right(calls, settled, i)
  }

  /** While every write was confirmed, the open jobs applied to the box give what every change in call
      order gives. */
  ghost predicate Refines<V, S>(
    confirmed: bool, box: Change<V>, jobs: seq<Job<V, S>>, initial: Change<V>, calls: seq<Change<V>>)
  {
    confirmed && Nested(calls) ==> ApplyAll(box, Changes(jobs)) == ApplyAll(initial, calls)
  }

  /** The jobs with the newer change in the last one's place. */
  function Merged<V, S>(jobs: seq<Job<V, S>>, change: Change<V>, source: S, caller: Caller): seq<Job<V, S>>
    requires jobs != []
  {
    var last := |jobs| - 1;
    jobs[last := Job(change, source, jobs[last].callers + [caller])]
  }

  lemma {:induction false} KeepSettled<V>(calls: seq<Change<V>>, change: Change<V>, settled: seq<Settlement<V>>)
    requires |settled| <= |calls| && forall i :: 0 <= i < |settled| ==> Right(calls, settled, i)
    ensures forall i :: 0 <= i < |settled| ==> Right(calls + [change], settled, i)
  {
    forall i | 0 <= i < |settled| ensures Right(calls + [change], settled, i) {
      assert Right(calls, settled, i);
      var d :| i <= d < |calls| && calls[d] == settled[i].change && KeysOf(calls[d]) == KeysOf(calls[i]);
      assert (calls + [change])[d] == calls[d] && (calls + [change])[i] == calls[i];
    }
  }

  lemma {:induction false} CoversLength<V, S>(jobs: seq<Job<V, S>>, calls: seq<Change<V>>, from: nat)
    requires Covers(jobs, calls, from)
    ensures from <= |calls|
    ensures jobs != [] ==> |calls| > 0 && jobs[|jobs| - 1].change == calls[|calls| - 1]
  {
    if |jobs| > 1 {
      CoversLength(jobs[1..], calls, from + |jobs[0].callers|);
      assert jobs[1..][|jobs| - 2] == jobs[|jobs| - 1];
    }
  }

  lemma {:induction false} OneStays<V, S>(job: Job<V, S>, calls: seq<Change<V>>, from: nat, change: Change<V>)
    requires CoversOne(job, calls, from)
    ensures CoversOne(job, calls + [change], from)
  {
  }

  lemma {:induction false} OneMerged<V, S>(
    job: Job<V, S>, calls: seq<Change<V>>, from: nat, change: Change<V>, source: S)
    requires CoversOne(job, calls, from) && from + |job.callers| == |calls| && KeysOf(job.change) == KeysOf(change)
    ensures CoversOne(Job(change, source, job.callers + [|calls|]), calls + [change], from)
  {
    hide KeysOf;
  }

  lemma {:induction false} OneNew<V, S>(calls: seq<Change<V>>, change: Change<V>, source: S)
    ensures Covers([Job(change, source, [|calls|])], calls + [change], |calls|)
  {
    hide KeysOf;
    var jobs := [Job(change, source, [|calls|])];
    assert jobs[1..] == [];
    assert CoversOne(jobs[0], calls + [change], |calls|);
  }

  lemma {:induction false} CoversAppend<V, S>(
    jobs: seq<Job<V, S>>, calls: seq<Change<V>>, from: nat, change: Change<V>, source: S)
    requires Covers(jobs, calls, from)
    ensures Covers(jobs + [Job(change, source, [|calls|])], calls + [change], from)
    decreases |jobs|
  {
    var job := Job(change, source, [|calls|]);
    if jobs == [] {
      OneNew(calls, change, source);
    } else {
      hide CoversOne, KeysOf;
      OneStays(jobs[0], calls, from, change);
      CoversAppend(jobs[1..], calls, from + |jobs[0].callers|, change, source);
      assert (jobs + [job])[1..] == jobs[1..] + [job];
    }
  }

  lemma {:induction false} CoversMerge<V, S>(
    jobs: seq<Job<V, S>>, calls: seq<Change<V>>, from: nat, change: Change<V>, source: S)
    requires Covers(jobs, calls, from) && jobs != []
    requires KeysOf(jobs[|jobs| - 1].change) == KeysOf(change)
    ensures Covers(Merged(jobs, change, source, |calls|), calls + [change], from)
    decreases |jobs|
  {
    hide CoversOne, KeysOf;
    var merged := Merged(jobs, change, source, |calls|);
    var next := from + |jobs[0].callers|;
    if |jobs| == 1 {
      assert Covers(jobs[1..], calls, next) && jobs[1..] == [];
      OneMerged(jobs[0], calls, from, change, source);
      assert merged == [Job(change, source, jobs[0].callers + [|calls|])];
      assert merged[1..] == [];
    } else {
      OneStays(jobs[0], calls, from, change);
      CoversMerge(jobs[1..], calls, next, change, source);
      assert merged[1..] == Merged(jobs[1..], change, source, |calls|);
      assert merged[0] == jobs[0];
    }
  }

  lemma {:induction false} AppendKeeps<V, S>(
    jobs: seq<Job<V, S>>, calls: seq<Change<V>>, settled: seq<Settlement<V>>, change: Change<V>, source: S)
    requires Consistent(jobs, calls, settled)
    ensures Consistent(jobs + [Job(change, source, [|calls|])], calls + [change], settled)
  {
    CoversLength(jobs, calls, |settled|);
    CoversAppend(jobs, calls, |settled|, change, source);
    KeepSettled(calls, change, settled);
  }

  lemma {:induction false} MergeKeeps<V, S>(
    jobs: seq<Job<V, S>>, calls: seq<Change<V>>, settled: seq<Settlement<V>>, change: Change<V>, source: S)
    requires Consistent(jobs, calls, settled) && jobs != []
    requires KeysOf(jobs[|jobs| - 1].change) == KeysOf(change)
    ensures Consistent(Merged(jobs, change, source, |calls|), calls + [change], settled)
  {
    CoversLength(jobs, calls, |settled|);
    CoversMerge(jobs, calls, |settled|, change, source);
    KeepSettled(calls, change, settled);
  }

  /** The first job's answer settles its callers, who are the next in call order. */
  lemma {:induction false} AnswerKeeps<V, S>(
    jobs: seq<Job<V, S>>, calls: seq<Change<V>>, settled: seq<Settlement<V>>, confirmed: bool)
    requires Consistent(jobs, calls, settled) && jobs != []
    ensures Consistent(jobs[1..], calls, settled + Copies(Settlement(jobs[0].change, confirmed), |jobs[0].callers|))
  {
    hide KeysOf;
    var n, k := |jobs[0].callers|, |settled|;
    var all := settled + Copies(Settlement(jobs[0].change, confirmed), n);
    forall i | 0 <= i < |all| ensures Right(calls, all, i) {
      if i < k {
        assert Right(calls, settled, i);
        assert all[i] == settled[i];
      } else {
        var d := k + n - 1;
        assert all[i].change == jobs[0].change == calls[d];
        assert i <= d < |calls| && KeysOf(calls[d]) == KeysOf(calls[i]);
      }
    }
  }

  lemma {:induction false} NestedBefore<V>(calls: seq<Change<V>>, change: Change<V>)
    requires Nested(calls + [change])
    ensures Nested(calls)
    ensures |calls| > 1 ==>
              KeysOf(calls[|calls| - 1]) == KeysOf(change) ==> calls[|calls| - 1].Keys <= change.Keys
  {
    var all := calls + [change];
    forall i | 0 < i < |calls| - 1 ensures Neighbours(calls, i) {
      assert Neighbours(all, i) && all[i] == calls[i] && all[i + 1] == calls[i + 1];
    }
    assert |calls| > 1 ==> Neighbours(all, |calls| - 1);
  }

  lemma {:induction false} AppendRefines<V, S>(
    confirmed: bool, box: Change<V>, jobs: seq<Job<V, S>>, initial: Change<V>, calls: seq<Change<V>>,
    change: Change<V>, source: S)
    requires Refines(confirmed, box, jobs, initial, calls)
    ensures Refines(confirmed, box, jobs + [Job(change, source, [|calls|])], initial, calls + [change])
  {
    if Nested(calls + [change]) {
      NestedBefore(calls, change);
      assert Changes(jobs + [Job(change, source, [|calls|])]) == Changes(jobs) + [change];
      ApplyOneMore(box, Changes(jobs), change);
      ApplyOneMore(initial, calls, change);
    }
  }

  /** Putting the newer change in the older one's place leaves what both would have left. */
  lemma {:induction false} MergeRefines<V, S>(
    confirmed: bool, box: Change<V>, jobs: seq<Job<V, S>>, initial: Change<V>, calls: seq<Change<V>>,
    settled: seq<Settlement<V>>, change: Change<V>, source: S)
    requires Consistent(jobs, calls, settled) && jobs != [] && |calls| > 1
    requires KeysOf(jobs[|jobs| - 1].change) == KeysOf(change)
    requires Refines(confirmed, box, jobs, initial, calls)
    ensures Refines(confirmed, box, Merged(jobs, change, source, |calls|), initial, calls + [change])
  {
    if Nested(calls + [change]) && confirmed {
      CoversLength(jobs, calls, |settled|);
      NestedBefore(calls, change);
      MergedChanges(jobs, change, source, |calls|);
      SameAfterMerge(box, Changes(jobs), change);
      ApplyOneMore(box, Changes(jobs), change);
      ApplyOneMore(initial, calls, change);
    }
  }

  lemma {:induction false} MergedChanges<V, S>(jobs: seq<Job<V, S>>, change: Change<V>, source: S, caller: Caller)
    requires jobs != []
    ensures Changes(Merged(jobs, change, source, caller)) == Changes(jobs)[..|jobs| - 1] + [change]
  {
  }

  /** The change before it gone, a change that sets as much leaves the same. */
  lemma {:induction false} SameAfterMerge<V>(box: Change<V>, changes: seq<Change<V>>, change: Change<V>)
    requires changes != [] && changes[|changes| - 1].Keys <= change.Keys
    ensures ApplyAll(box, changes[..|changes| - 1] + [change]) == ApplyAll(box, changes + [change])
  {
    var front, last := changes[..|changes| - 1], changes[|changes| - 1];
    ApplyOneMore(box, front, change);
    ApplyOneMore(box, changes, change);
    MergeIsSafe(last, change);
    assert ApplyAll(box, front) + last + change == ApplyAll(box, front) + change;
  }

  lemma {:induction false} AnswerRefines<V, S>(
    confirmed: bool, box: Change<V>, jobs: seq<Job<V, S>>, initial: Change<V>, calls: seq<Change<V>>)
    requires jobs != [] && Refines(confirmed, box, jobs, initial, calls)
    ensures Refines(confirmed, box + jobs[0].change, jobs[1..], initial, calls)
  {
    ApplyFirst(box, Changes(jobs));
    assert Changes(jobs)[1..] == Changes(jobs[1..]);
  }

  // ---- Every run ----

  /** The queue, what it was called with and from where, what it has settled and announced, and the box.
      `confirmed` is whether every answer so far confirmed its write. At most one job is current, so at most
      one send is in flight. */
  datatype State<V, S> = State(
    waiting: seq<Job<V, S>>, current: Option<Job<V, S>>, phase: Phase, calls: seq<Change<V>>, sources: seq<S>,
    settled: seq<Settlement<V>>, announced: seq<S>, box: Change<V>, confirmed: bool)

  /** A call of save, the microtask that sends, the box's answer, and the last then. The box may have
      applied a write that it did not confirm. */
  datatype Event<V, S> = Call(change: Change<V>, source: S) | Send | Answer(ok: bool, applied: bool) | Release

  function Initial<V, S>(box: Change<V>): State<V, S> { State([], None, Answered, [], [], [], [], box, true) }

  predicate Enabled<V, S>(s: State<V, S>, e: Event<V, S>) {
    match e
    case Call(_, _) => true
    case Send => s.current.Some? && s.phase == Picked
    case Answer(ok, applied) => s.current.Some? && s.phase == Sent && (ok ==> applied)
    case Release => s.current.Some? && s.phase == Answered
  }

  /** next(): the first waiting job, unless one runs. */
  function Pick<V, S>(s: State<V, S>): State<V, S> {
    if s.current.Some? || s.waiting == [] then s
    else s.(current := Some(s.waiting[0]), waiting := s.waiting[1..], phase := Picked)
  }

  /** A call replaces the last waiting change when their joined keys are equal, and waits last otherwise. */
  function Waiting<V, S>(s: State<V, S>, change: Change<V>, source: S): seq<Job<V, S>> {
    if s.waiting != [] && KeysOf(s.waiting[|s.waiting| - 1].change) == KeysOf(change)
    then Merged(s.waiting, change, source, |s.calls|)
    else s.waiting + [Job(change, source, [|s.calls|])]
  }

  function Called<V, S>(s: State<V, S>, change: Change<V>, source: S): State<V, S> {
    s.(waiting := Waiting(s, change, source), calls := s.calls + [change], sources := s.sources + [source])
  }

  function Next<V, S>(s: State<V, S>, e: Event<V, S>): State<V, S>
    requires Enabled(s, e)
  {
    match e
    case Call(change, source) => Pick(Called(s, change, source))
    case Send => s.(phase := Sent)
    case Answer(ok, applied) =>
      var job := s.current.value;
      s.(phase := Answered, settled := s.settled + Copies(Settlement(job.change, ok), |job.callers|),
         announced := if ok then s.announced + [job.source] else s.announced,
         box := if applied then s.box + job.change else s.box, confirmed := s.confirmed && ok)
    case Release => Pick(s.(current := None))
  }

  /** The events in turn; one that cannot happen changes nothing. */
  function Steps<V, S>(s: State<V, S>, events: seq<Event<V, S>>): State<V, S>
    decreases |events|
  {
    if events == [] then s
    else Steps(if Enabled(s, events[0]) then Next(s, events[0]) else s, events[1..])
  }

  function Run<V, S>(box: Change<V>, events: seq<Event<V, S>>): State<V, S> { Steps(Initial(box), events) }

  /** The jobs whose callers wait for an answer. */
  function Open<V, S>(s: State<V, S>): seq<Job<V, S>> {
    (if s.current.Some? && s.phase != Answered then [s.current.value] else []) + s.waiting
  }

  /** Nothing waits unless a job runs, and a job that was answered settled someone. */
  ghost predicate Inv<V, S>(s: State<V, S>, initial: Change<V>) {
    && Sound(s, initial) && (s.waiting != [] ==> s.current.Some?)
  }

  ghost predicate Sound<V, S>(s: State<V, S>, initial: Change<V>) {
    && Consistent(Open(s), s.calls, s.settled)
    && Refines(s.confirmed, s.box, Open(s), initial, s.calls)
    && (s.current.Some? && s.phase == Answered ==> s.settled != [])
  }

  lemma {:induction false} PickKeeps<V, S>(s: State<V, S>, initial: Change<V>)
    requires Sound(s, initial)
    ensures Inv(Pick(s), initial)
  {
    hide Consistent, Refines;
    if s.current.None? && s.waiting != [] {
      assert Open(Pick(s)) == s.waiting == Open(s);
    }
  }

  /** Two calls at least have been made once one waits. */
  lemma {:induction false} OneRunsOneWaits<V, S>(s: State<V, S>, initial: Change<V>)
    requires Inv(s, initial) && s.waiting != []
    ensures |s.calls| > 1
  {
    if s.phase == Answered {
      assert Open(s) == s.waiting;
    } else {
      assert Open(s)[0] == s.current.value && Open(s)[1..] == s.waiting;
      assert Covers(s.waiting, s.calls, |s.settled| + |s.current.value.callers|);
    }
  }

  lemma {:induction false} ReplaceKeeps<V, S>(s: State<V, S>, change: Change<V>, source: S, initial: Change<V>)
    requires Inv(s, initial) && s.waiting != [] && KeysOf(s.waiting[|s.waiting| - 1].change) == KeysOf(change)
    ensures Sound(Called(s, change, source), initial)
  {
    hide Covers, Right, KeysOf, Refines;
    var t := Called(s, change, source);
    OneRunsOneWaits(s, initial);
    assert Open(s)[|Open(s)| - 1] == s.waiting[|s.waiting| - 1];
    MergeKeeps(Open(s), s.calls, s.settled, change, source);
    MergeRefines(s.confirmed, s.box, Open(s), initial, s.calls, s.settled, change, source);
    assert Open(t) == Merged(Open(s), change, source, |s.calls|);
  }

  lemma {:induction false} CallKeeps<V, S>(s: State<V, S>, change: Change<V>, source: S, initial: Change<V>)
    requires Inv(s, initial)
    ensures Sound(Called(s, change, source), initial)
  {
    hide Covers, Right, Refines, Merged;
    var t := Called(s, change, source);
    if s.waiting != [] && KeysOf(s.waiting[|s.waiting| - 1].change) == KeysOf(change) {
      ReplaceKeeps(s, change, source, initial);
    } else {
      AppendKeeps(Open(s), s.calls, s.settled, change, source);
      AppendRefines(s.confirmed, s.box, Open(s), initial, s.calls, change, source);
      assert Open(t) == Open(s) + [Job(change, source, [|s.calls|])];
    }
  }

  lemma {:induction false} AnswerIsKept<V, S>(s: State<V, S>, ok: bool, applied: bool, initial: Change<V>)
    requires Inv(s, initial) && Enabled(s, Answer(ok, applied))
    ensures Inv(Next(s, Answer(ok, applied)), initial)
  {
    hide Covers;
    var job := s.current.value;
    assert Open(s)[0] == job && Open(s)[1..] == s.waiting;
    AnswerKeeps(Open(s), s.calls, s.settled, ok);
    AnswerRefines(s.confirmed, s.box, Open(s), initial, s.calls);
    FirstHasCallers(Open(s), s.calls, |s.settled|);
    assert Open(Next(s, Answer(ok, applied))) == s.waiting;
  }

  lemma {:induction false} FirstHasCallers<V, S>(jobs: seq<Job<V, S>>, calls: seq<Change<V>>, from: nat)
    requires Covers(jobs, calls, from) && jobs != []
    ensures |jobs[0].callers| > 0
  {
  }

  lemma {:induction false} StepKeeps<V, S>(s: State<V, S>, e: Event<V, S>, initial: Change<V>)
    requires Inv(s, initial) && Enabled(s, e)
    ensures Inv(Next(s, e), initial)
  {
    match e {
      case Call(change, source) =>
        CallKeeps(s, change, source, initial);
        PickKeeps(Called(s, change, source), initial);
      case Send => assert Open(s.(phase := Sent)) == Open(s);
      case Answer(ok, applied) => AnswerIsKept(s, ok, applied, initial);
      case Release =>
        assert Open(s.(current := None)) == Open(s);
        PickKeeps(s.(current := None), initial);
    }
  }

  lemma {:induction false} StepsKeep<V, S>(s: State<V, S>, events: seq<Event<V, S>>, initial: Change<V>)
    requires Inv(s, initial)
    ensures Inv(Steps(s, events), initial)
    decreases |events|
  {
    hide Inv;
    if events != [] {
      if Enabled(s, events[0]) {
        StepKeeps(s, events[0], initial);
      }
      StepsKeep(if Enabled(s, events[0]) then Next(s, events[0]) else s, events[1..], initial);
    }
  }

  lemma {:induction false} RunKeeps<V, S>(box: Change<V>, events: seq<Event<V, S>>)
    ensures Inv(Run(box, events), box)
  {
    StepsKeep(Initial(box), events, box);
  }

  // ---- What the queue promises ----

  /** In every run, callers are settled in call order, each by its own change or by a later one with the same
      keys, and all of them once nothing runs. */
  lemma {:induction false} CallersAreSettled<V, S>(box: Change<V>, events: seq<Event<V, S>>)
    ensures var s := Run(box, events);
            && |s.settled| <= |s.calls| && (s.current.None? ==> |s.settled| == |s.calls|)
            && forall i :: 0 <= i < |s.settled| ==> Right(s.calls, s.settled, i)
  {
    RunKeeps(box, events);
    var s := Run(box, events);
    CoversLength(Open(s), s.calls, |s.settled|);
  }

  /** In every run that has come to rest with every write confirmed, the box holds what applying the calls in
      order gives, when neighbouring calls that join alike are nested. */
  lemma {:induction false} Drained<V, S>(box: Change<V>, events: seq<Event<V, S>>)
    requires var s := Run(box, events); s.current.None? && s.confirmed && Nested(s.calls)
    ensures Run(box, events).box == ApplyAll(box, Run(box, events).calls)
  {
    RunKeeps(box, events);
  }

  /** Plain names are always nested, so then every drained run is faithful. */
  lemma {:induction false} PlainIsNested<V>(calls: seq<Change<V>>)
    requires forall i :: 0 <= i < |calls| ==> PlainKeys(calls[i])
    ensures Nested(calls)
  {
    forall i | 0 < i < |calls| - 1 ensures Neighbours(calls, i) {
      KeysOfIsTheKeySet(calls[i], calls[i + 1]);
    }
  }

  // ---- What each caller is told ----

  /** The changes, and the sources, of the calls of save, in turn. */
  function CallsOf<V, S>(events: seq<Event<V, S>>): seq<(Change<V>, S)> {
    if events == [] then [] else
    var e := events[|events| - 1];
    CallsOf(events[..|events| - 1]) + if e.Call? then [(e.change, e.source)] else []
  }

  lemma {:induction false} RunStep<V, S>(box: Change<V>, events: seq<Event<V, S>>, k: nat)
    requires k < |events|
    ensures var s := Run(box, events[..k]);
            Run(box, events[..k + 1]) == if Enabled(s, events[k]) then Next(s, events[k]) else s
  {
    assert events[..k + 1] == events[..k] + [events[k]];
    StepsThen(Initial(box), events[..k], [events[k]]);
    assert [events[k]][1..] == [];
  }

  lemma {:induction false} LastStep<V, S>(box: Change<V>, events: seq<Event<V, S>>)
    requires events != []
    ensures var s, e := Run(box, events[..|events| - 1]), events[|events| - 1];
            Run(box, events) == if Enabled(s, e) then Next(s, e) else s
  {
    RunStep(box, events, |events| - 1);
    assert events[..|events|] == events;
  }

  /** Every call counts, in the order they are made. */
  lemma {:induction false} CallsAreTheEvents<V, S>(box: Change<V>, events: seq<Event<V, S>>)
    ensures var s, c := Run(box, events), CallsOf(events);
            |s.calls| == |s.sources| == |c| && forall i :: 0 <= i < |c| ==> s.calls[i] == c[i].0 && s.sources[i] == c[i].1
  {
    if events != [] {
      CallsAreTheEvents(box, events[..|events| - 1]);
      LastStep(box, events);
    }
  }

  /** Every open job's source is that of its newest caller. */
  ghost predicate SourcesKnown<V, S>(s: State<V, S>) {
    && (forall i :: 0 <= i < |s.waiting| ==> SourceKnown(s.waiting[i], s.sources))
    && (s.current.Some? ==> SourceKnown(s.current.value, s.sources))
    && |s.sources| == |s.calls|
  }

  ghost predicate SourceKnown<V, S>(job: Job<V, S>, sources: seq<S>) {
    var n := |job.callers|;
    n > 0 && job.callers[n - 1] < |sources| && job.source == sources[job.callers[n - 1]]
  }

  lemma {:induction false} SourcesStay<V, S>(s: State<V, S>, e: Event<V, S>)
    requires SourcesKnown(s) && Enabled(s, e)
    ensures SourcesKnown(Next(s, e))
  {
    hide KeysOf;
    if e.Call? {
      var w := Waiting(s, e.change, e.source);
      forall i | 0 <= i < |w| ensures SourceKnown(w[i], s.sources + [e.source]) {
        assert i < |s.waiting| ==> SourceKnown(s.waiting[i], s.sources);
      }
    }
  }

  lemma {:induction false} RunKnowsSources<V, S>(box: Change<V>, events: seq<Event<V, S>>)
    ensures SourcesKnown(Run(box, events))
  {
    if events != [] {
      hide SourcesKnown;
      RunKnowsSources(box, events[..|events| - 1]);
      LastStep(box, events);
      var s, e := Run(box, events[..|events| - 1]), events[|events| - 1];
      if Enabled(s, e) {
        SourcesStay(s, e);
      }
    } else {
      assert Run(box, events) == Initial(box);
    }
  }

  /** The answer settles the callers from the first open one to d, whose change was sent: all are told d's
      change and whether it was confirmed; the box takes it if applied, and d's source hears of it if confirmed. */
  ghost predicate Settles<V, S>(s: State<V, S>, e: Event<V, S>, t: State<V, S>, d: nat)
    requires e.Answer? && |s.sources| == |s.calls|
  {
    && |s.settled| <= d < |s.calls| && |t.settled| == d + 1 && t.settled[..|s.settled|] == s.settled
    && (forall i :: |s.settled| <= i <= d ==>
          t.settled[i] == Settlement(s.calls[d], e.ok) && KeysOf(s.calls[i]) == KeysOf(s.calls[d]))
    && t.box == (if e.applied then s.box + s.calls[d] else s.box)
    && t.announced == (if e.ok then s.announced + [s.sources[d]] else s.announced)
  }

  lemma {:induction false} AnswerSettles<V, S>(s: State<V, S>, e: Event<V, S>, initial: Change<V>) returns (d: nat)
    requires Inv(s, initial) && SourcesKnown(s) && e.Answer? && Enabled(s, e)
    ensures Settles(s, e, Next(s, e), d)
  {
    hide Refines, KeysOf;
    var job := s.current.value;
    assert Open(s)[0] == job;
    assert CoversOne(job, s.calls, |s.settled|);
    d := |s.settled| + |job.callers| - 1;
  }

  /** In every run each answer settles the next callers in this way, and no other event settles, writes or
      announces anything. */
  lemma {:induction false} EachAnswerSettles<V, S>(box: Change<V>, events: seq<Event<V, S>>, k: nat)
    requires k < |events|
    ensures var s, e, t := Run(box, events[..k]), events[k], Run(box, events[..k + 1]);
            && |s.sources| == |s.calls|
            && (e.Answer? && Enabled(s, e) ==> exists d: nat :: Settles(s, e, t, d))
            && (!(e.Answer? && Enabled(s, e)) ==>
                  t.settled == s.settled && t.box == s.box && t.announced == s.announced && t.confirmed == s.confirmed)
  {
    hide Settles, Inv, SourcesKnown;
    var s, e := Run(box, events[..k]), events[k];
    RunStep(box, events, k);
    RunKeeps(box, events[..k]);
    RunKnowsSources(box, events[..k]);
    SourcesCount(s);
    if e.Answer? && Enabled(s, e) {
      var d := AnswerSettles(s, e, box);
    }
  }

  lemma {:induction false} SourcesCount<V, S>(s: State<V, S>)
    requires SourcesKnown(s)
    ensures |s.sources| == |s.calls|
  {
  }

  /** Caller i was settled by the event at k. */
  ghost predicate SettledAt<V, S>(box: Change<V>, events: seq<Event<V, S>>, i: nat, k: nat)
    requires k < |events|
  {
    |Run(box, events[..k]).settled| <= i < |Run(box, events[..k + 1]).settled|
  }

  /** Each caller is told that the write was confirmed exactly when the answer that settled it said so. */
  lemma {:induction false} ToldItsAnswer<V, S>(box: Change<V>, events: seq<Event<V, S>>, i: nat) returns (k: nat)
    requires i < |Run(box, events).settled|
    ensures k < |events| && events[k].Answer? && SettledAt(box, events, i, k)
    ensures Run(box, events).settled[i].confirmed == events[k].ok
  {
    hide Settles, Enabled;
    k := |events| - 1;
    var front := events[..k];
    assert events[..k + 1] == events;
    EachAnswerSettles(box, events, k);
    if i < |Run(box, front).settled| {
      var at := ToldItsAnswer(box, front, i);
      assert front[..at] == events[..at] && front[..at + 1] == events[..at + 1];
      SettledStay(box, events, k, i);
      k := at;
    } else {
      NewlyTold(box, events, k, i);
    }
  }

  lemma {:induction false} SettledStay<V, S>(box: Change<V>, events: seq<Event<V, S>>, k: nat, i: nat)
    requires k < |events| && i < |Run(box, events[..k]).settled|
    ensures i < |Run(box, events[..k + 1]).settled|
    ensures Run(box, events[..k + 1]).settled[i] == Run(box, events[..k]).settled[i]
  {
    hide Enabled, Run;
    EachAnswerSettles(box, events, k);
    var s, e, t := Run(box, events[..k]), events[k], Run(box, events[..k + 1]);
    if e.Answer? && Enabled(s, e) {
      var d: nat :| Settles(s, e, t, d);
      assert t.settled[i] == t.settled[..|s.settled|][i];
    }
  }

  lemma {:induction false} NewlyTold<V, S>(box: Change<V>, events: seq<Event<V, S>>, k: nat, i: nat)
    requires k < |events| && |Run(box, events[..k]).settled| <= i < |Run(box, events[..k + 1]).settled|
    ensures events[k].Answer? && Run(box, events[..k + 1]).settled[i].confirmed == events[k].ok
  {
    hide Enabled, Run;
    EachAnswerSettles(box, events, k);
    var s, e, t := Run(box, events[..k]), events[k], Run(box, events[..k + 1]);
    if e.Answer? && Enabled(s, e) {
      var d: nat :| Settles(s, e, t, d);
    }
  }

  /** So every write was confirmed exactly when every settled caller was told so. */
  lemma {:induction false} ConfirmedIffAllTold<V, S>(box: Change<V>, events: seq<Event<V, S>>)
    ensures var s := Run(box, events);
            s.confirmed <==> forall i :: 0 <= i < |s.settled| ==> s.settled[i].confirmed
  {
    if events == [] {
      assert Run(box, events) == Initial(box);
    } else {
      var n := |events| - 1;
      ConfirmedIffAllTold(box, events[..n]);
      AllToldStep(box, events);
    }
  }

  lemma {:induction false} AllToldStep<V, S>(box: Change<V>, events: seq<Event<V, S>>)
    requires events != []
    ensures var s, t := Run(box, events[..|events| - 1]), Run(box, events);
            (s.confirmed <==> forall i :: 0 <= i < |s.settled| ==> s.settled[i].confirmed) ==>
            (t.confirmed <==> forall i :: 0 <= i < |t.settled| ==> t.settled[i].confirmed)
  {
    hide Run;
    var n := |events| - 1;
    var s, e, t := Run(box, events[..n]), events[n], Run(box, events);
    assert events[..n + 1] == events;
    EachAnswerSettles(box, events, n);
    LastStep(box, events);
    if e.Answer? && Enabled(s, e) {
      var d: nat :| Settles(s, e, t, d);
      assert t.settled[d].confirmed == e.ok;
      assert forall i :: 0 <= i < |s.settled| ==> s.settled[i] == t.settled[..|s.settled|][i];
      assert forall i :: 0 <= i < |s.settled| ==> t.settled[i] == s.settled[i];
    }
  }

  // ---- Exactly when it holds ----

  function KeySets<V>(calls: seq<Change<V>>): (k: seq<set<Name>>)
    ensures |k| == |calls| && forall i :: 0 <= i < |k| ==> k[i] == calls[i].Keys
  {
    seq(|calls|, i requires 0 <= i < |calls| => calls[i].Keys)
  }

  /** The joined keys of neighbours after the first, where equal, name nested sets. */
  ghost predicate NestedSets(sets: seq<set<Name>>) {
    forall i {:trigger NestedAt(sets, i)} :: 0 < i < |sets| - 1 ==> NestedAt(sets, i)
  }

  ghost predicate NestedAt(sets: seq<set<Name>>, i: nat)
    requires i < |sets| - 1
  {
    Join(Sorted(sets[i])) == Join(Sorted(sets[i + 1])) ==> sets[i] <= sets[i + 1]
  }

  /** Whenever a run whose calls set these keys in turn, so far, is at rest with every write confirmed, the box
      is as if each call had been applied. */
  ghost predicate Faithful<V, S>(sets: seq<set<Name>>, box: Change<V>, events: seq<Event<V, S>>) {
    var s := Run(box, events);
    KeySets(s.calls) <= sets && s.current.None? && s.confirmed ==> s.box == ApplyAll(box, s.calls)
  }

  lemma {:induction false} NestedBySets<V>(calls: seq<Change<V>>, sets: seq<set<Name>>)
    requires NestedSets(sets) && KeySets(calls) <= sets
    ensures Nested(calls)
  {
    forall i | 0 < i < |calls| - 1 ensures Neighbours(calls, i) {
      assert NestedAt(sets, i) && sets[i] == KeySets(calls)[i] && sets[i + 1] == KeySets(calls)[i + 1];
    }
  }

  lemma {:induction false} StepsThen<V, S>(s: State<V, S>, a: seq<Event<V, S>>, b: seq<Event<V, S>>)
    ensures Steps(s, a + b) == Steps(Steps(s, a), b)
    decreases |a|
  {
    if a == [] {
      assert a + b == b;
    } else {
      assert (a + b)[1..] == a[1..] + b;
      StepsThen(if Enabled(s, a[0]) then Next(s, a[0]) else s, a[1..], b);
    }
  }

  /** The running job is sent, answered and released. */
  function Finish<V, S>(): seq<Event<V, S>> { [Send, Answer(true, true), Release] }

  lemma {:induction false} Finished<V, S>(s: State<V, S>)
    requires s.current.Some? && s.phase == Picked
    ensures var job := s.current.value;
            Steps(s, Finish()) ==
            Pick(s.(current := None, phase := Answered, box := s.box + job.change,
                    settled := s.settled + Copies(Settlement(job.change, true), |job.callers|),
                    announced := s.announced + [job.source]))
  {
    var e: seq<Event<V, S>> := Finish();
    assert e[1..] == [Answer(true, true), Release] && e[1..][1..] == [Release] && e[1..][1..][1..] == [];
    var s1 := Next(s, Send);
    assert Steps(s, e) == Steps(s1, e[1..]);
    var s2 := Next(s1, Answer(true, true));
    assert Steps(s1, e[1..]) == Steps(s2, [Release]);
    assert Steps(s2, [Release]) == Steps(Next(s2, Release), []);
  }

  lemma {:induction false} OneStep<V, S>(s: State<V, S>, e: Event<V, S>)
    requires Enabled(s, e)
    ensures Steps(s, [e]) == Next(s, e)
  {
    assert [e][1..] == [];
  }

  /** At rest, having made these calls and applied these changes. */
  ghost predicate AtRest<V, S>(s: State<V, S>, calls: seq<Change<V>>, box: Change<V>) {
    s.current.None? && s.waiting == [] && s.confirmed && s.calls == calls && s.box == box
  }

  /** The calls one by one, each finished before the next. */
  function Serial<V, S>(calls: seq<Change<V>>, source: S): seq<Event<V, S>> {
    if calls == [] then [] else Serial(calls[..|calls| - 1], source) + ([Call(calls[|calls| - 1], source)] + Finish())
  }

  lemma {:induction false} SerialRun<V, S>(calls: seq<Change<V>>, source: S)
    ensures AtRest(Run(map[], Serial(calls, source)), calls, ApplyAll(map[], calls))
  {
    if calls != [] {
      var front, last := calls[..|calls| - 1], calls[|calls| - 1];
      SerialRun(front, source);
      var s := Run(map[], Serial(front, source));
      StepsThen(Initial(map[]), Serial(front, source), [Call(last, source)] + Finish());
      StepsThen(s, [Call(last, source)], Finish());
      OneStep(s, Call(last, source));
      Finished(Next(s, Call(last, source)));
      assert calls == front + [last];
    }
  }

  lemma {:induction false} FirstStep<V, S>(s: State<V, S>, e: Event<V, S>, rest: seq<Event<V, S>>)
    requires Enabled(s, e)
    ensures Steps(s, [e] + rest) == Steps(Next(s, e), rest)
  {
    assert ([e] + rest)[1..] == rest;
  }

  /** One job runs and one waits, with these changes. */
  ghost predicate RunsThenWaits<V, S>(s: State<V, S>, calls: seq<Change<V>>, box: Change<V>, a: Change<V>, c: Change<V>) {
    && s.current.Some? && s.phase == Picked && s.current.value.change == a
    && |s.waiting| == 1 && s.waiting[0].change == c
    && s.confirmed && s.calls == calls && s.box == box
  }

  lemma {:induction false} TwoFinish<V, S>(
    s: State<V, S>, calls: seq<Change<V>>, box: Change<V>, a: Change<V>, c: Change<V>)
    requires RunsThenWaits(s, calls, box, a, c)
    ensures AtRest(Steps(s, Finish() + Finish()), calls, box + a + c)
  {
    hide Steps, Finish, Copies;
    StepsThen(s, Finish(), Finish());
    Finished(s);
    Finished(Steps(s, Finish()));
  }

  /** A call that runs at once, one that waits, and one that replaces it: then the second is lost. */
  lemma {:induction false} Replaced<V, S>(
    s: State<V, S>, calls: seq<Change<V>>, box: Change<V>, a: Change<V>, b: Change<V>, c: Change<V>, source: S)
    requires AtRest(s, calls, box) && KeysOf(b) == KeysOf(c)
    ensures AtRest(Steps(s, [Call(a, source)] + ([Call(b, source)] + ([Call(c, source)] + (Finish() + Finish())))),
                   calls + [a] + [b] + [c], box + a + c)
  {
    hide Steps, Finish, KeysOf;
    var rest2 := Finish() + Finish();
    var rest1 := [Call(c, source)] + rest2;
    FirstStep(s, Call(a, source), [Call(b, source)] + rest1);
    var s1 := Next(s, Call(a, source));
    FirstStep(s1, Call(b, source), rest1);
    var s2 := Next(s1, Call(b, source));
    FirstStep(s2, Call(c, source), rest2);
    TwoFinish(Next(s2, Call(c, source)), calls + [a] + [b] + [c], box, a, c);
  }

  /** Every key with one value. */
  function Filled<V>(keys: set<Name>, v: V): Change<V> { map k | k in keys :: v }

  /** Calls that set these keys to u. */
  function AllFilled<V>(sets: seq<set<Name>>, u: V): (calls: seq<Change<V>>)
    ensures |calls| == |sets| && forall i :: 0 <= i < |calls| ==> calls[i] == Filled(sets[i], u)
  {
    seq(|sets|, i requires 0 <= i < |sets| => Filled(sets[i], u))
  }

  lemma {:induction false} OnlyU<V>(sets: seq<set<Name>>, u: V, k: Name)
    ensures var box := ApplyAll(map[], AllFilled(sets, u)); k in box ==> box[k] == u
  {
    if sets != [] {
      OnlyU(sets[..|sets| - 1], u, k);
      assert AllFilled(sets, u)[..|sets| - 1] == AllFilled(sets[..|sets| - 1], u);
    }
  }

  /** For two neighbours that join alike without being nested, a run that loses what the first set. */
  lemma {:induction false} LosingRun<V, S>(sets: seq<set<Name>>, i: nat, u: V, v: V, source: S)
    returns (events: seq<Event<V, S>>)
    requires 0 < i < |sets| - 1 && !NestedAt(sets, i) && u != v
    ensures !Faithful(sets, map[], events)
  {
    hide Steps, Serial, Finish, Join, Sorted, ApplyAll;
    var before := AllFilled(sets[..i - 1], u);
    var a, b, c := Filled(sets[i - 1], u), Filled(sets[i], v), Filled(sets[i + 1], u);
    SerialRun(before, source);
    var s := Run(map[], Serial(before, source));
    var more := [Call(a, source)] + ([Call(b, source)] + ([Call(c, source)] + (Finish() + Finish())));
    assert a.Keys == sets[i - 1] && b.Keys == sets[i] && c.Keys == sets[i + 1];
    Replaced(s, before, s.box, a, b, c, source);
    events := Serial(before, source) + more;
    StepsThen(Initial(map[]), Serial(before, source), more);
    SetsSoFar(sets, i, u, v);
    var k :| k in sets[i] && k !in sets[i + 1];
    LostKey(sets, i, u, v, k);
  }

  lemma {:induction false} SetsSoFar<V>(sets: seq<set<Name>>, i: nat, u: V, v: V)
    requires 0 < i < |sets| - 1
    ensures var a, b, c := Filled(sets[i - 1], u), Filled(sets[i], v), Filled(sets[i + 1], u);
            KeySets(AllFilled(sets[..i - 1], u) + [a] + [b] + [c]) <= sets
  {
    var before := AllFilled(sets[..i - 1], u);
    var a, b, c := Filled(sets[i - 1], u), Filled(sets[i], v), Filled(sets[i + 1], u);
    assert a.Keys == sets[i - 1] && b.Keys == sets[i] && c.Keys == sets[i + 1];
    var calls := before + [a] + [b] + [c];
    forall j | 0 <= j < i + 2 ensures calls[j].Keys == sets[j] {
      if j < i - 1 {
        assert calls[j] == before[j];
      }
    }
    assert KeySets(calls) == sets[..i + 2];
  }

  /** Without the replaced call the key has not its value. */
  lemma {:induction false} LostKey<V>(sets: seq<set<Name>>, i: nat, u: V, v: V, k: Name)
    requires 0 < i < |sets| - 1 && u != v && k in sets[i] && k !in sets[i + 1]
    ensures var before, a, b, c := AllFilled(sets[..i - 1], u), Filled(sets[i - 1], u), Filled(sets[i], v),
                                   Filled(sets[i + 1], u);
            ApplyAll(map[], before) + a + c != ApplyAll(map[], before + [a] + [b] + [c])
  {
    var before, a, b, c := AllFilled(sets[..i - 1], u), Filled(sets[i - 1], u), Filled(sets[i], v),
                           Filled(sets[i + 1], u);
    ApplyOneMore(map[], before, a);
    ApplyOneMore(map[], before + [a], b);
    ApplyOneMore(map[], before + [a] + [b], c);
    OnlyU(sets[..i - 1], u, k);
    assert ApplyAll(map[], before + [a] + [b] + [c])[k] == v;
  }

  /** Every run of calls that set these keys is faithful, exactly when neighbours that join alike, the first
      two aside, are nested. */
  lemma {:induction false} FaithfulIffNested<V, S>(sets: seq<set<Name>>, u: V, v: V, source: S)
    requires u != v
    ensures (forall box: Change<V>, events: seq<Event<V, S>> :: Faithful(sets, box, events)) <==> NestedSets(sets)
  {
    if NestedSets(sets) {
      forall box: Change<V>, events: seq<Event<V, S>> ensures Faithful(sets, box, events) {
        var s := Run(box, events);
        if KeySets(s.calls) <= sets && s.current.None? && s.confirmed {
          NestedBySets(s.calls, sets);
          Drained(box, events);
        }
      }
    } else {
      var i :| 0 < i < |sets| - 1 && !NestedAt(sets, i);
      var events := LosingRun(sets, i, u, v, source);
    }
  }

  /** The names "a,b" and "a" with "b" join alike. */
  lemma {:induction false} CommaJoinsAlike()
    ensures KeysOf(map[[97, COMMA, 98] := 1]) == KeysOf(map[[97] := 2, [98] := 3])
  {
    var x, y := map[[97, COMMA, 98] := 1], map[[97] := 2, [98] := 3];
    assert Less([97], [98]);
    SortedIs([[97, COMMA, 98]], x.Keys);
    SortedIs([[97], [98]], y.Keys);
    assert [[97], [98]][1..] == [[98]];
  }

  /** Three calls, the second of which is lost. */
  lemma {:induction false} CommaLosesAChange() returns (events: seq<Event<int, ()>>)
    ensures var s := Run(map[], events);
            && s.current.None? && s.confirmed && |s.calls| == 3
            && [97, 44, 98] in ApplyAll(map[], s.calls) && [97, 44, 98] !in s.box
  {
    hide Steps, Finish, KeysOf, ApplyAll;
    var z, x, y := map[[122] := 0], map[[97, COMMA, 98] := 1], map[[97] := 2, [98] := 3];
    CommaJoinsAlike();
    var s: State<int, ()> := Initial(map[]);
    events := [Call(z, ())] + ([Call(x, ())] + ([Call(y, ())] + (Finish() + Finish())));
    Replaced(s, [], map[], z, x, y, ());
    ApplyOneMore(map[], [], z);
    ApplyOneMore(map[], [] + [z], x);
    ApplyOneMore(map[], [] + [z] + [x], y);
    NothingApplied<int>();
  }

  lemma {:induction false} NothingApplied<V>()
    ensures ApplyAll<V>(map[], []) == map[]
  {
  }

  // ---- The queue itself ----

  class Queue<V(==), S> {
    var running: bool
    var waiting: seq<Job<V, S>>
    var current: Option<Job<V, S>>
    var phase: Phase
    var nextCaller: Caller
    ghost var history: State<V, S>

    ghost predicate Matches()
      reads this
    {
      && running == current.Some? && nextCaller == |history.calls|
      && history.waiting == waiting && history.current == current && history.phase == phase
    }

    constructor (ghost box: Change<V>)
      ensures Matches() && history == Initial(box)
    {
      running, waiting, current, phase, nextCaller := false, [], None, Answered, 0;
      history := Initial(box);
    }

    /** next() */
    method PickNext()
      requires Matches()
      modifies this
      ensures Matches() && history == Pick(old(history))
    {
      history := Pick(history);
      if running || waiting == [] {
        return;
      }
      running := true;
      current, waiting, phase := Some(waiting[0]), waiting[1..], Picked;
    }

    /** save(change, source): the promise it returns is the caller's number. */
    method Save(change: Change<V>, source: S) returns (caller: Caller)
      requires Matches()
      modifies this
      ensures Matches() && history == Next(old(history), Call(change, source))
      ensures caller == |old(history).calls|
    {
      caller := nextCaller;
      history := Called(history, change, source);
      var n := |waiting|;
      if n > 0 && KeysOf(waiting[n - 1].change) == KeysOf(change) {
        waiting := waiting[n - 1 := Job(change, source, waiting[n - 1].callers + [caller])];
      } else {
        waiting := waiting + [Job(change, source, [caller])];
      }
      nextCaller := nextCaller + 1;
      PickNext();
    }

    /** The microtask that calls send(job.change). */
    method SendIt()
      requires Matches() && current.Some? && phase == Picked
      modifies this
      ensures Matches() && history == Next(old(history), Send)
    {
      phase := Sent;
      history := Next(history, Send);
    }

    /** The box answers: every caller of the job is settled, and a confirmed write announced. */
    method Answers(ok: bool, ghost applied: bool)
      returns (callers: seq<Caller>, settlement: Settlement<V>, announced: Option<S>)
      requires Matches() && current.Some? && phase == Sent && (ok ==> applied)
      modifies this
      ensures Matches() && history == Next(old(history), Answer(ok, applied))
      ensures callers == old(current).value.callers && settlement == Settlement(old(current).value.change, ok)
      ensures history.settled == old(history).settled + Copies(settlement, |callers|)
      ensures announced == if ok then Some(old(current).value.source) else None
    {
      var job := current.value;
      phase := Answered;
      callers, settlement := job.callers, Settlement(job.change, ok);
      announced := if ok then Some(job.source) else None;
      history := Next(history, Answer(ok, applied));
    }

    /** The last then: running becomes false and the next job starts. */
    method Done()
      requires Matches() && current.Some? && phase == Answered
      modifies this
      ensures Matches() && history == Next(old(history), Release)
    {
      running, current := false, None;
      history := history.(current := None);
      PickNext();
    }
  }
}
