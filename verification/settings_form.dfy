/** web/settings.js: what leaving or saving a settings tab takes from its fields into the configuration. */
module SettingsForm {
  import opened Wrappers
  import opened ConfigTree

  datatype Kind = NumberBox | PasswordBox | OtherBox

  /** A field with a path: its text now, its default text, the number parseFloat finds in it, its unit. */
  datatype Input = Input(path: Path, kind: Kind, value: string, initial: string, parsed: Option<real>,
                         scale: Option<real>)

  datatype CheckBox = CheckBox(path: Path, checked: bool, initial: bool)

  datatype Form = Form(inputs: seq<Input>, boxes: seq<CheckBox>)
  {
    predicate Ok() {
      && (forall i :: 0 <= i < |inputs| ==> inputs[i].path != [])
      && (forall i :: 0 <= i < |boxes| ==> boxes[i].path != [])
    }
  }

  /** The configuration, and the text or mark last taken from or given to each field. */
  datatype State = State(store: Store, texts: map<nat, string>, marks: map<nat, bool>)

  function Remembered<T>(seen: map<nat, T>, i: nat, initial: T): T {
    if i in seen then seen[i] else initial
  }

  function ValueOf(input: Input): (v: Plain)
    ensures v != Object
  {
    if input.kind.NumberBox? then
      if input.parsed.None? then Null
      else if input.scale.Some? then Number(input.parsed.value * input.scale.value)
      else Number(input.parsed.value)
    else Text(input.value)
  }

  predicate BlankPassword(input: Input) { input.kind.PasswordBox? && input.value == "" }

  predicate Stored(st: State, input: Input) { !Falsy(Some(GetByPathOf(st.store, input.path, Text("")))) }

  /** A field that is passed over: not edited, or a blank password with one stored. */
  predicate InputQuiet(st: State, form: Form, i: nat)
    requires i < |form.inputs|
  {
    var input := form.inputs[i];
    || Remembered(st.texts, i, input.initial) == input.value
    || (BlankPassword(input) && Stored(st, input))
  }

  predicate BoxQuiet(st: State, form: Form, i: nat)
    requires i < |form.boxes|
  {
    Remembered(st.marks, i, form.boxes[i].initial) == form.boxes[i].checked
  }

  /** One field; false when the write throws, which ends the capture. */
  function CaptureInput(st: State, form: Form, i: nat): (State, bool)
    requires form.Ok() && i < |form.inputs|
  {
    var input := form.inputs[i];
    if InputQuiet(st, form, i) then (st, true) else
    var s := Set(st.store, input.path, ValueOf(input));
    if s.None? then (st, false) else (State(s.value, st.texts[i := input.value], st.marks), true)
  }

  function CaptureBox(st: State, form: Form, i: nat): (State, bool)
    requires form.Ok() && i < |form.boxes|
  {
    var box := form.boxes[i];
    if BoxQuiet(st, form, i) then (st, true) else
    var s := Set(st.store, box.path, Flag(box.checked));
    if s.None? then (st, false) else (State(s.value, st.texts, st.marks[i := box.checked]), true)
  }

  /** The first n fields of the form, then the first m boxes. */
  function CaptureInputs(st: State, form: Form, n: nat): (State, bool)
    requires form.Ok() && n <= |form.inputs|
  {
    if n == 0 then (st, true) else
    var (before, ok) := CaptureInputs(st, form, n - 1);
    if ok then CaptureInput(before, form, n - 1) else (before, false)
  }

  function CaptureBoxes(st: State, form: Form, m: nat): (State, bool)
    requires form.Ok() && m <= |form.boxes|
  {
    if m == 0 then CaptureInputs(st, form, |form.inputs|) else
    var (before, ok) := CaptureBoxes(st, form, m - 1);
    if ok then CaptureBox(before, form, m - 1) else (before, false)
  }

  function Capture(st: State, form: Form): (State, bool)
    requires form.Ok()
  {
    CaptureBoxes(st, form, |form.boxes|)
  }

  // ---- in place ----

  class Settings {
    const config: Config
    var texts: map<nat, string>
    var marks: map<nat, bool>

    constructor (c: Config)
      ensures config == c && texts == map[] && marks == map[]
    {
      config := c;
      texts := map[];
      marks := map[];
    }

    ghost function Now(): State
      reads this, config
    {
      State(config.view, texts, marks)
    }

    method CaptureOne(form: Form, i: nat) returns (ok: bool)
      requires config.Valid() && form.Ok() && i < |form.inputs|
      modifies this, config, config.home.Keys
      ensures config.Valid() && fresh(config.home.Keys - old(config.home.Keys))
      ensures (Now(), ok) == CaptureInput(old(Now()), form, i)
    {
      hide Falsy, ValueOf, Set;
      var input := form.inputs[i];
      if (if i in texts then texts[i] else input.initial) == input.value {
        return true;
      }
      if input.kind.PasswordBox? && input.value == "" {
        var stored := config.GetByPath(input.path, Text(""));
        if !Falsy(Some(stored)) {
          return true;
        }
      }
      ok := config.SetByPath(input.path, ValueOf(input));
      if ok {
        texts := texts[i := input.value];
      }
    }

    method CaptureMark(form: Form, i: nat) returns (ok: bool)
      requires config.Valid() && form.Ok() && i < |form.boxes|
      modifies this, config, config.home.Keys
      ensures config.Valid() && fresh(config.home.Keys - old(config.home.Keys))
      ensures (Now(), ok) == CaptureBox(old(Now()), form, i)
    {
      var box := form.boxes[i];
      if (if i in marks then marks[i] else box.initial) == box.checked {
        return true;
      }
      ok := config.SetByPath(box.path, Flag(box.checked));
      if ok {
        marks := marks[i := box.checked];
      }
    }

    method CaptureTexts(form: Form) returns (ok: bool)
      requires config.Valid() && form.Ok()
      modifies this, config, config.home.Keys
      ensures config.Valid() && fresh(config.home.Keys - old(config.home.Keys))
      ensures (Now(), ok) == CaptureInputs(old(Now()), form, |form.inputs|)
    {
      ghost var was := Now();
      for i := 0 to |form.inputs|
        invariant config.Valid() && fresh(config.home.Keys - old(config.home.Keys))
        invariant (Now(), true) == CaptureInputs(was, form, i)
      {
        ok := CaptureOne(form, i);
        if !ok {
          InputsStop(was, form, i + 1, |form.inputs|);
          return;
        }
      }
      ok := true;
    }

    method CaptureCurrentTab(form: Form) returns (ok: bool)
      requires config.Valid() && form.Ok()
      modifies this, config, config.home.Keys
      ensures config.Valid() && fresh(config.home.Keys - old(config.home.Keys))
      ensures (Now(), ok) == Capture(old(Now()), form)
    {
      ghost var was := Now();
      ok := CaptureTexts(form);
      if !ok {
        BoxesStop(was, form, 0, |form.boxes|);
        return;
      }
      for i := 0 to |form.boxes|
        invariant config.Valid() && fresh(config.home.Keys - old(config.home.Keys))
        invariant (Now(), true) == CaptureBoxes(was, form, i)
      {
        ok := CaptureMark(form, i);
        if !ok {
          BoxesStop(was, form, i + 1, |form.boxes|);
          return;
        }
      }
      ok := true;
    }
  }

  /** A throw ends the capture. */
  lemma {:induction false} InputsStop(st: State, form: Form, i: nat, n: nat)
    requires form.Ok() && i <= n <= |form.inputs| && !CaptureInputs(st, form, i).1
    ensures CaptureInputs(st, form, n) == CaptureInputs(st, form, i)
  {
    if i < n {
      InputsStop(st, form, i, n - 1);
    }
  }

  lemma {:induction false} BoxesStop(st: State, form: Form, i: nat, m: nat)
    requires form.Ok() && i <= m <= |form.boxes| && !CaptureBoxes(st, form, i).1
    ensures CaptureBoxes(st, form, m) == CaptureBoxes(st, form, i)
  {
    if i < m {
      BoxesStop(st, form, i, m - 1);
    }
  }

  // ---- a form nobody edited, and capturing again ----

  ghost predicate AllQuiet(st: State, form: Form) {
    && (forall i :: 0 <= i < |form.inputs| ==> InputQuiet(st, form, i))
    && (forall i :: 0 <= i < |form.boxes| ==> BoxQuiet(st, form, i))
  }

  /** Text i ends as the field's value as soon as it is written, and stays so. */
  lemma {:induction false} TextsRemembered(st: State, form: Form, n: nat, i: nat)
    requires form.Ok() && i < n <= |form.inputs| && CaptureInputs(st, form, n).1
    ensures var before, after := CaptureInputs(st, form, i), CaptureInputs(st, form, n).0;
            && before.1
            && Remembered(before.0.texts, i, form.inputs[i].initial) == Remembered(st.texts, i, form.inputs[i].initial)
            && (if InputQuiet(before.0, form, i)
                then Remembered(after.texts, i, form.inputs[i].initial) ==
                     Remembered(st.texts, i, form.inputs[i].initial)
                else Remembered(after.texts, i, form.inputs[i].initial) == form.inputs[i].value)
  {
    if i < n - 1 {
      TextsRemembered(st, form, n - 1, i);
    } else {
      TextsUntouched(st, form, i);
    }
  }

  lemma {:induction false} TextsUntouched(st: State, form: Form, i: nat)
    requires form.Ok() && i < |form.inputs|
    ensures var t := CaptureInputs(st, form, i).0.texts;
            forall k :: k >= i ==> (k in t <==> k in st.texts) && (k in t ==> t[k] == st.texts[k])
  {
    if i > 0 {
      TextsUntouched(st, form, i - 1);
    }
  }

  lemma {:induction false} MarksUntouched(st: State, form: Form, i: nat)
    requires form.Ok() && i <= |form.boxes|
    ensures var t := CaptureBoxes(st, form, i).0;
            && (forall k :: k >= i ==> (k in t.marks <==> k in st.marks) && (k in t.marks ==> t.marks[k] == st.marks[k]))
            && t.texts == CaptureInputs(st, form, |form.inputs|).0.texts
  {
    if i > 0 {
      MarksUntouched(st, form, i - 1);
    } else {
      InputsKeepMarks(st, form, |form.inputs|);
    }
  }

  lemma {:induction false} InputsKeepMarks(st: State, form: Form, n: nat)
    requires form.Ok() && n <= |form.inputs|
    ensures CaptureInputs(st, form, n).0.marks == st.marks
  {
    if n > 0 {
      InputsKeepMarks(st, form, n - 1);
    }
  }

  ghost predicate SameTexts(s: State, t: State, form: Form, n: nat)
    requires n <= |form.inputs|
  {
    forall i :: 0 <= i < n ==>
      Remembered(s.texts, i, form.inputs[i].initial) == Remembered(t.texts, i, form.inputs[i].initial)
  }

  /** Fields that all remember what they did were all passed over. */
  lemma {:induction false} InputsBack(st: State, form: Form, n: nat)
    requires form.Ok() && n <= |form.inputs| && CaptureInputs(st, form, n).1
    requires SameTexts(st, CaptureInputs(st, form, n).0, form, n)
    ensures CaptureInputs(st, form, n) == (st, true)
    ensures forall i :: 0 <= i < n ==> InputQuiet(st, form, i)
  {
    if n > 0 {
      var before := CaptureInputs(st, form, n - 1).0;
      var after := CaptureInputs(st, form, n).0;
      forall i | 0 <= i < n - 1
        ensures Remembered(before.texts, i, form.inputs[i].initial) == Remembered(st.texts, i, form.inputs[i].initial)
      {
        assert Remembered(after.texts, i, form.inputs[i].initial) == Remembered(st.texts, i, form.inputs[i].initial);
      }
      InputsBack(st, form, n - 1);
      assert Remembered(after.texts, n - 1, form.inputs[n - 1].initial) ==
             Remembered(st.texts, n - 1, form.inputs[n - 1].initial);
    }
  }

  lemma {:induction false} BoxesBack(st: State, form: Form, m: nat)
    requires form.Ok() && m <= |form.boxes|
    requires CaptureInputs(st, form, |form.inputs|) == (st, true) && CaptureBoxes(st, form, m).1
    requires CaptureBoxes(st, form, m).0.marks == st.marks
    ensures CaptureBoxes(st, form, m) == (st, true)
    ensures forall i :: 0 <= i < m ==> BoxQuiet(st, form, i)
  {
    if m > 0 {
      var before := CaptureBoxes(st, form, m - 1).0;
      MarksUntouched(st, form, m - 1);
      var i := m - 1;
      assert BoxQuiet(before, form, i);
      BoxesBack(st, form, m - 1);
    }
  }

  /** Passed over from field m on, the fields leave the state as it was there. */
  lemma {:induction false} QuietInputs(st: State, form: Form, m: nat, n: nat, s: State)
    requires form.Ok() && m <= n <= |form.inputs| && CaptureInputs(st, form, m) == (s, true)
    requires forall i :: m <= i < n ==> InputQuiet(s, form, i)
    ensures CaptureInputs(st, form, n) == (s, true)
  {
    if m < n {
      QuietInputs(st, form, m, n - 1, s);
    }
  }

  lemma {:induction false} QuietBoxes(st: State, form: Form, m: nat, n: nat, s: State)
    requires form.Ok() && m <= n <= |form.boxes| && CaptureBoxes(st, form, m) == (s, true)
    requires forall i :: m <= i < n ==> BoxQuiet(s, form, i)
    ensures CaptureBoxes(st, form, n) == (s, true)
  {
    if m < n {
      QuietBoxes(st, form, m, n - 1, s);
    }
  }

  /** Something is stored at the path, and it is not null, false, 0 or an empty text. */
  ghost predicate SomethingAt(s: Store, p: Path) {
    p in s && s[p] != Null && s[p] != Flag(false) && s[p] != Number(0.0) && s[p] != Text("")
  }

  /** The field's text differs from the one last taken from it or given to it, and it is no blank password with
      one stored. */
  ghost predicate Taken(st: State, form: Form, i: nat)
    requires i < |form.inputs|
  {
    var input := form.inputs[i];
    && input.value != (if i in st.texts then st.texts[i] else input.initial)
    && !(input.kind == PasswordBox && input.value == "" && SomethingAt(st.store, input.path))
  }

  lemma {:induction false} TakenIs(st: State, form: Form, i: nat)
    requires i < |form.inputs|
    ensures Taken(st, form, i) <==> !InputQuiet(st, form, i)
  {
  }

  /** Capturing is the identity exactly on a form without an edit, blank passwords over stored ones aside. */
  lemma {:induction false} IdentityIffQuiet(st: State, form: Form)
    requires form.Ok()
    ensures Capture(st, form) == (st, true) <==>
            && (forall i :: 0 <= i < |form.inputs| ==> !Taken(st, form, i))
            && forall i :: 0 <= i < |form.boxes| ==>
                 form.boxes[i].checked == if i in st.marks then st.marks[i] else form.boxes[i].initial
  {
    QuietIsIdentity(st, form);
    forall i | 0 <= i < |form.inputs| ensures Taken(st, form, i) <==> !InputQuiet(st, form, i) {
      TakenIs(st, form, i);
    }
    forall i | 0 <= i < |form.boxes|
      ensures BoxQuiet(st, form, i) <==>
              form.boxes[i].checked == if i in st.marks then st.marks[i] else form.boxes[i].initial
    {
    }
  }

  lemma {:induction false} QuietIsIdentity(st: State, form: Form)
    requires form.Ok()
    ensures Capture(st, form) == (st, true) <==> AllQuiet(st, form)
  {
    if AllQuiet(st, form) {
      QuietInputs(st, form, 0, |form.inputs|, st);
      QuietBoxes(st, form, 0, |form.boxes|, st);
    }
    if Capture(st, form) == (st, true) {
      MarksUntouched(st, form, |form.boxes|);
      InputsDone(st, form, |form.boxes|);
      InputsBack(st, form, |form.inputs|);
      BoxesBack(st, form, |form.boxes|);
    }
  }

  lemma {:induction false} InputsDone(st: State, form: Form, m: nat)
    requires form.Ok() && m <= |form.boxes| && CaptureBoxes(st, form, m).1
    ensures CaptureInputs(st, form, |form.inputs|).1
  {
    if m > 0 {
      InputsDone(st, form, m - 1);
    }
  }

  /** An edited blank password whose stored one has gone: the one field a capture leaves to the next. */
  predicate LeftOver(st: State, form: Form, i: nat)
    requires i < |form.inputs|
  {
    var input := form.inputs[i];
    BlankPassword(input) && Remembered(st.texts, i, input.initial) != input.value && !Stored(st, input)
  }

  lemma {:induction false} BoxesRemembered(st: State, form: Form, m: nat, i: nat)
    requires form.Ok() && i < m <= |form.boxes| && CaptureBoxes(st, form, m).1
    ensures BoxQuiet(CaptureBoxes(st, form, m).0, form, i)
  {
    if i < m - 1 {
      BoxesRemembered(st, form, m - 1, i);
    }
  }

  /** Capturing a second time changes nothing exactly when no such password is left over. */
  lemma {:induction false} AgainIsIdentityIff(st: State, form: Form)
    requires form.Ok() && Capture(st, form).1
    ensures var once := Capture(st, form).0;
            Capture(once, form) == (once, true) <==> forall i :: 0 <= i < |form.inputs| ==> !LeftOver(once, form, i)
  {
    var once := Capture(st, form).0;
    QuietIsIdentity(once, form);
    MarksUntouched(st, form, |form.boxes|);
    InputsDone(st, form, |form.boxes|);
    forall i | 0 <= i < |form.inputs| ensures InputQuiet(once, form, i) <==> !LeftOver(once, form, i) {
      TextsRemembered(st, form, |form.inputs|, i);
    }
    forall i | 0 <= i < |form.boxes| ensures BoxQuiet(once, form, i) {
      BoxesRemembered(st, form, |form.boxes|, i);
    }
  }

  // ---- exactly the forms that capture once and for all ----

  /** The later field k may write over the path of field i what is no password, or falsy. */
  predicate InputWipes(form: Form, i: nat, k: nat)
    requires i < |form.inputs| && k < |form.inputs|
  {
    && form.inputs[k].path <= form.inputs[i].path
    && !(form.inputs[k].kind.PasswordBox? && form.inputs[k].path == form.inputs[i].path)
  }

  predicate BoxWipes(form: Form, i: nat, k: nat)
    requires i < |form.inputs| && k < |form.boxes|
  {
    form.boxes[k].path <= form.inputs[i].path
  }

  /** No password box has a later field, or any checkbox, whose path is its own or leads to it; another
      password box on its own path aside. */
  ghost predicate KeepsPasswords(form: Form) {
    forall i :: 0 <= i < |form.inputs| && form.inputs[i].kind.PasswordBox? ==> KeepsPassword(form, i)
  }

  ghost predicate KeepsPassword(form: Form, i: nat)
    requires i < |form.inputs|
  {
    && (forall k :: i < k < |form.inputs| ==> !InputWipes(form, i, k))
    && (forall k :: 0 <= k < |form.boxes| ==> !BoxWipes(form, i, k))
  }

  /** The same fields in the same order, whatever they hold. */
  ghost predicate SameLayout(f: Form, g: Form) {
    && |f.inputs| == |g.inputs| && |f.boxes| == |g.boxes|
    && (forall i :: 0 <= i < |f.inputs| ==> f.inputs[i].path == g.inputs[i].path && f.inputs[i].kind == g.inputs[i].kind)
    && (forall i :: 0 <= i < |f.boxes| ==> f.boxes[i].path == g.boxes[i].path)
  }

  lemma {:induction false} LayoutKeeps(f: Form, g: Form)
    requires SameLayout(f, g) && KeepsPasswords(f)
    ensures KeepsPasswords(g)
  {
    forall i | 0 <= i < |g.inputs| && g.inputs[i].kind.PasswordBox? ensures KeepsPassword(g, i) {
      assert KeepsPassword(f, i);
      forall k | i < k < |g.inputs| ensures !InputWipes(g, i, k) {
        assert !InputWipes(f, i, k);
      }
      forall k | 0 <= k < |g.boxes| ensures !BoxWipes(g, i, k) {
        assert !BoxWipes(f, i, k);
      }
    }
  }

  /** A truthy value survives a write elsewhere, or below, or of a truthy value in its place. */
  lemma {:induction false} TruthySurvives(s: Store, p: Path, q: Path, v: Plain)
    requires q != [] && Tree(s) && Set(s, q, v).Some? && !Falsy(Get(s, p))
    requires q <= p ==> q == p && !Falsy(Some(v))
    ensures Tree(Set(s, q, v).value) && !Falsy(Get(Set(s, q, v).value, p))
  {
    SetShape(s, q, v);
  }

  lemma {:induction false} StoredIsTruthy(st: State, input: Input)
    ensures Stored(st, input) <==> !Falsy(Get(st.store, input.path))
  {
  }

  lemma {:induction false} InputsTree(st: State, form: Form, n: nat)
    requires form.Ok() && n <= |form.inputs| && Tree(st.store)
    ensures Tree(CaptureInputs(st, form, n).0.store)
  {
    if n > 0 {
      InputsTree(st, form, n - 1);
      SetShape(CaptureInputs(st, form, n - 1).0.store, form.inputs[n - 1].path, ValueOf(form.inputs[n - 1]));
    }
  }

  lemma {:induction false} BoxesTree(st: State, form: Form, m: nat)
    requires form.Ok() && m <= |form.boxes| && Tree(st.store)
    ensures Tree(CaptureBoxes(st, form, m).0.store)
  {
    if m > 0 {
      BoxesTree(st, form, m - 1);
      SetShape(CaptureBoxes(st, form, m - 1).0.store, form.boxes[m - 1].path, Flag(form.boxes[m - 1].checked));
    } else {
      InputsTree(st, form, |form.inputs|);
    }
  }

  /** A stored password is still stored after the later field k. */
  lemma {:induction false} InputKeepsStored(s: State, form: Form, i: nat, k: nat)
    requires form.Ok() && i < k < |form.inputs| && !InputWipes(form, i, k) && Tree(s.store)
    requires Stored(s, form.inputs[i]) && CaptureInput(s, form, k).1
    ensures Stored(CaptureInput(s, form, k).0, form.inputs[i])
  {
    var input := form.inputs[k];
    StoredIsTruthy(s, form.inputs[i]);
    StoredIsTruthy(CaptureInput(s, form, k).0, form.inputs[i]);
    if !InputQuiet(s, form, k) {
      StoredIsTruthy(s, input);
      TruthySurvives(s.store, form.inputs[i].path, input.path, ValueOf(input));
    }
  }

  lemma {:induction false} InputsKeepStored(st: State, form: Form, i: nat, from: nat, n: nat)
    requires form.Ok() && i < from <= n <= |form.inputs| && Tree(st.store) && CaptureInputs(st, form, n).1
    requires KeepsPassword(form, i) && Stored(CaptureInputs(st, form, from).0, form.inputs[i])
    ensures Stored(CaptureInputs(st, form, n).0, form.inputs[i])
  {
    hide InputWipes, Stored;
    if from < n {
      InputsKeepStored(st, form, i, from, n - 1);
      InputsTree(st, form, n - 1);
      InputKeepsStored(CaptureInputs(st, form, n - 1).0, form, i, n - 1);
    }
  }

  lemma {:induction false} BoxesKeepStored(st: State, form: Form, i: nat, m: nat)
    requires form.Ok() && i < |form.inputs| && m <= |form.boxes| && Tree(st.store) && CaptureBoxes(st, form, m).1
    requires KeepsPassword(form, i) && Stored(CaptureInputs(st, form, |form.inputs|).0, form.inputs[i])
    ensures Stored(CaptureBoxes(st, form, m).0, form.inputs[i])
  {
    if m > 0 {
      BoxesKeepStored(st, form, i, m - 1);
      BoxesTree(st, form, m - 1);
      var s := CaptureBoxes(st, form, m - 1).0;
      assert !BoxWipes(form, i, m - 1);
      StoredIsTruthy(s, form.inputs[i]);
      StoredIsTruthy(CaptureBoxes(st, form, m).0, form.inputs[i]);
      if !BoxQuiet(s, form, m - 1) {
        TruthySurvives(s.store, form.inputs[i].path, form.boxes[m - 1].path, Flag(form.boxes[m - 1].checked));
      }
    }
  }

  lemma {:induction false} NoneLeftOver(st: State, form: Form, i: nat)
    requires form.Ok() && KeepsPasswords(form) && Tree(st.store) && Capture(st, form).1 && i < |form.inputs|
    ensures !LeftOver(Capture(st, form).0, form, i)
  {
    hide Stored, KeepsPassword;
    var n := |form.inputs|;
    var before := CaptureInputs(st, form, i).0;
    InputsDone(st, form, |form.boxes|);
    TextsRemembered(st, form, n, i);
    MarksUntouched(st, form, |form.boxes|);
    if BlankPassword(form.inputs[i]) && Stored(before, form.inputs[i]) {
      InputsUpTo(st, form, i + 1, n);
      InputsKeepStored(st, form, i, i + 1, n);
      BoxesKeepStored(st, form, i, |form.boxes|);
    }
  }

  lemma {:induction false} InputsUpTo(st: State, form: Form, i: nat, n: nat)
    requires form.Ok() && i <= n <= |form.inputs| && CaptureInputs(st, form, n).1
    ensures CaptureInputs(st, form, i).1
  {
    if i < n {
      InputsUpTo(st, form, i, n - 1);
    }
  }

  /** On a form that keeps its passwords capturing twice is capturing once. */
  lemma {:induction false} CaptureTwice(st: State, form: Form)
    requires form.Ok() && KeepsPasswords(form) && Tree(st.store) && Capture(st, form).1
    ensures var once := Capture(st, form).0; Capture(once, form) == (once, true)
  {
    AgainIsIdentityIff(st, form);
    forall i | 0 <= i < |form.inputs| ensures !LeftOver(Capture(st, form).0, form, i) {
      NoneLeftOver(st, form, i);
    }
  }

  /** The form with only these edits: password i cleared, and either field k or checkbox c changed. */
  function Edited(form: Form, i: nat, k: nat, c: nat): (g: Form)
    ensures |g.inputs| == |form.inputs| && |g.boxes| == |form.boxes|
  {
    Form(
      seq(|form.inputs|, n requires 0 <= n < |form.inputs| => EditedInput(form.inputs[n], n == i, n == k)),
      seq(|form.boxes|, n requires 0 <= n < |form.boxes| => CheckBox(form.boxes[n].path, false, n == c)))
  }

  function EditedInput(input: Input, cleared: bool, changed: bool): Input {
    if cleared then Input(input.path, input.kind, "", "x", None, None)
    else if changed then Input(input.path, input.kind, if input.kind.PasswordBox? then "y" else "", "x", None, None)
    else Input(input.path, input.kind, "", "", None, None)
  }

  /** A configuration that holds one password and nothing else. */
  function WithPassword(p: Path): State
    requires p != []
  {
    var s := Set(map[[] := Object], p, Text("s"));
    State(if s.Some? then s.value else map[], map[], map[])
  }

  lemma {:induction false} PasswordIsThere(p: Path)
    requires p != []
    ensures var s := WithPassword(p).store; Tree(s) && Get(s, p) == Some(Text("s"))
    ensures forall q, v :: q != [] && q <= p && v != Object ==> Set(WithPassword(p).store, q, v).Some?
  {
    var top: Store := map[[] := Object];
    assert Tree(top);
    SetShape(top, p, Text("s"));
    forall j | 0 < j < |p| ensures Get(top, p[..j]) == None {}
    var s := WithPassword(p).store;
    forall q, v | q != [] && q <= p && v != Object ensures Set(s, q, v).Some? {
      SetShape(s, q, v);
      forall j | 0 < j < |q| ensures Get(s, q[..j]) == Some(Object) {
        assert q[..j] == p[..j] && p[..j] != p;
        assert Get(s, p[..j]) == Afterwards(top, p, Text("s"), p[..j]);
      }
    }
  }

  /** Writing the path of the password, or one on the way to it, takes the password away. */
  lemma {:induction false} PasswordGoes(p: Path, q: Path, v: Plain)
    requires q != [] && q <= p && v != Object && (q == p ==> Falsy(Some(v)))
    ensures var s := Set(WithPassword(p).store, q, v); s.Some? && Falsy(Get(s.value, p))
  {
    PasswordIsThere(p);
    SetShape(WithPassword(p).store, q, v);
    assert Get(Set(WithPassword(p).store, q, v).value, p) == Afterwards(WithPassword(p).store, q, v, p);
  }

  lemma {:induction false} EditedIsAlike(form: Form, i: nat, k: nat, c: nat)
    requires form.Ok() && i < |form.inputs|
    ensures var g := Edited(form, i, k, c); SameLayout(form, g) && g.Ok()
  {
  }

  /** Until the change everything is passed over, the cleared password because it is stored. */
  lemma {:induction false} EditedIsQuiet(form: Form, i: nat, k: nat, c: nat, n: nat)
    requires form.Ok() && i < |form.inputs| && form.inputs[i].kind.PasswordBox? && n < |form.inputs| && n != k
    ensures InputQuiet(WithPassword(form.inputs[i].path), Edited(form, i, k, c), n)
  {
    PasswordIsThere(form.inputs[i].path);
  }

  /** A later field that may wipe the password does, and the second capture finds it cleared. */
  lemma {:induction false} InputWipesOnce(form: Form, i: nat, k: nat)
    requires form.Ok() && i < k < |form.inputs| && form.inputs[i].kind.PasswordBox? && InputWipes(form, i, k)
    ensures var st, g := WithPassword(form.inputs[i].path), Edited(form, i, k, |form.boxes|);
            && g.Ok() && Capture(st, g).1
            && LeftOver(Capture(st, g).0, g, i)
  {
    var p, c := form.inputs[i].path, |form.boxes|;
    var st, g := WithPassword(p), Edited(form, i, k, c);
    EditedIsAlike(form, i, k, c);
    forall n | 0 <= n < k ensures InputQuiet(st, g, n) {
      EditedIsQuiet(form, i, k, c, n);
    }
    QuietInputs(st, g, 0, k, st);
    var v := ValueOf(g.inputs[k]);
    PasswordGoes(p, form.inputs[k].path, v);
    var after := State(Set(st.store, form.inputs[k].path, v).value, map[k := g.inputs[k].value], map[]);
    assert CaptureInputs(st, g, k + 1) == (after, true);
    QuietInputs(st, g, k + 1, |g.inputs|, after);
    QuietBoxes(st, g, 0, |g.boxes|, after);
    StoredIsTruthy(after, g.inputs[i]);
  }

  lemma {:induction false} BoxWipesOnce(form: Form, i: nat, c: nat)
    requires form.Ok() && i < |form.inputs| && c < |form.boxes| && form.inputs[i].kind.PasswordBox? && BoxWipes(form, i, c)
    ensures var st, g := WithPassword(form.inputs[i].path), Edited(form, i, |form.inputs|, c);
            && g.Ok() && Capture(st, g).1
            && LeftOver(Capture(st, g).0, g, i)
  {
    var p, k := form.inputs[i].path, |form.inputs|;
    var st, g := WithPassword(p), Edited(form, i, k, c);
    EditedIsAlike(form, i, k, c);
    forall n | 0 <= n < |g.inputs| ensures InputQuiet(st, g, n) {
      EditedIsQuiet(form, i, k, c, n);
    }
    QuietInputs(st, g, 0, |g.inputs|, st);
    QuietBoxes(st, g, 0, c, st);
    PasswordGoes(p, form.boxes[c].path, Flag(false));
    var after := State(Set(st.store, form.boxes[c].path, Flag(false)).value, map[], map[c := false]);
    assert CaptureBoxes(st, g, c + 1) == (after, true);
    QuietBoxes(st, g, c + 1, |g.boxes|, after);
    StoredIsTruthy(after, g.inputs[i]);
  }

  /** Capturing the form's fields again changes nothing, whatever they hold and whatever the state. */
  ghost predicate CapturesOnce(f: Form) {
    forall st: State, g: Form ::
      SameLayout(f, g) && g.Ok() && Tree(st.store) && Capture(st, g).1 ==> AgainIsSame(st, g)
  }

  ghost predicate AgainIsSame(st: State, g: Form)
    requires g.Ok()
  {
    Capture(Capture(st, g).0, g) == (Capture(st, g).0, true)
  }

  /** Capturing twice is capturing once, over all states and contents of the fields, exactly when no password
      box has a later field, or a checkbox, whose path is its own or leads to it, another password box on its
      own path aside. */
  lemma {:induction false} CapturesOnceIffKeepsPasswords(f: Form)
    requires f.Ok()
    ensures CapturesOnce(f) <==> KeepsPasswords(f)
  {
    if KeepsPasswords(f) {
      forall st: State, g: Form | SameLayout(f, g) && g.Ok() && Tree(st.store) && Capture(st, g).1
        ensures AgainIsSame(st, g)
      {
        LayoutKeeps(f, g);
        CaptureTwice(st, g);
      }
    } else {
      var st, g := WipedForm(f);
      assert !AgainIsSame(st, g);
    }
  }

  /** For any other form, a state and contents that show it. */
  lemma {:induction false} WipedForm(f: Form) returns (st: State, g: Form)
    requires f.Ok() && !KeepsPasswords(f)
    ensures SameLayout(f, g) && g.Ok() && Tree(st.store) && Capture(st, g).1 && !AgainIsSame(st, g)
  {
    hide Capture, LeftOver, InputWipes, BoxWipes, SameLayout, WithPassword, Tree;
    var i :| 0 <= i < |f.inputs| && f.inputs[i].kind.PasswordBox? && !KeepsPassword(f, i);
    st := WithPassword(f.inputs[i].path);
    PasswordIsThere(f.inputs[i].path);
    if k :| i < k < |f.inputs| && InputWipes(f, i, k) {
      g := Edited(f, i, k, |f.boxes|);
      EditedIsAlike(f, i, k, |f.boxes|);
      InputWipesOnce(f, i, k);
    } else {
      var c :| 0 <= c < |f.boxes| && BoxWipes(f, i, c);
      g := Edited(f, i, |f.inputs|, c);
      EditedIsAlike(f, i, |f.inputs|, c);
      BoxWipesOnce(f, i, c);
    }
    AgainIsIdentityIff(st, g);
  }

  // ---- forms that name every path once ----

  /** No path of the form leads to or through another. */
  ghost predicate Apart(form: Form) {
    && (forall i :: 0 <= i < |form.inputs| ==> Elsewhere(form, i, |form.boxes|, form.inputs[i].path))
    && (forall j :: 0 <= j < |form.boxes| ==> Elsewhere(form, |form.inputs|, j, form.boxes[j].path))
  }

  /** The path q is unrelated to every path of the form, field i and box j aside. */
  ghost predicate Elsewhere(form: Form, i: nat, j: nat, q: Path) {
    && (forall k :: 0 <= k < |form.inputs| && k != i ==> !Related(form.inputs[k].path, q))
    && (forall k :: 0 <= k < |form.boxes| && k != j ==> !Related(form.boxes[k].path, q))
  }

  lemma {:induction false} InputsElsewhere(st: State, form: Form, i: nat, n: nat, q: Path)
    requires form.Ok() && i <= n <= |form.inputs| && Tree(st.store) && CaptureInputs(st, form, n).1
    requires forall k :: i <= k < n ==> !Related(form.inputs[k].path, q)
    ensures var s, t := CaptureInputs(st, form, i), CaptureInputs(st, form, n).0;
            s.1 && Tree(s.0.store) && Tree(t.store) && Get(s.0.store, q) == Get(t.store, q)
    decreases n
  {
    if i < n {
      InputsElsewhere(st, form, i, n - 1, q);
      var before := CaptureInputs(st, form, n - 1).0;
      SetShape(before.store, form.inputs[n - 1].path, ValueOf(form.inputs[n - 1]));
    } else if n > 0 {
      InputsElsewhere(st, form, n - 1, n - 1, q);
      var before := CaptureInputs(st, form, n - 1).0;
      SetShape(before.store, form.inputs[n - 1].path, ValueOf(form.inputs[n - 1]));
    }
  }

  lemma {:induction false} BoxesElsewhere(st: State, form: Form, j: nat, m: nat, q: Path)
    requires form.Ok() && j <= m <= |form.boxes| && Tree(st.store) && CaptureBoxes(st, form, m).1
    requires forall k :: j <= k < m ==> !Related(form.boxes[k].path, q)
    ensures var s, t := CaptureBoxes(st, form, j), CaptureBoxes(st, form, m).0;
            s.1 && Tree(s.0.store) && Tree(t.store) && Get(s.0.store, q) == Get(t.store, q)
    decreases m
  {
    if m == 0 {
      InputsElsewhere(st, form, |form.inputs|, |form.inputs|, q);
    } else {
      BoxesElsewhere(st, form, if j < m then j else m - 1, m - 1, q);
      var before := CaptureBoxes(st, form, m - 1).0;
      SetShape(before.store, form.boxes[m - 1].path, Flag(form.boxes[m - 1].checked));
    }
  }

  /** The whole capture leaves alone every path unrelated to the form's. */
  lemma {:induction false} CaptureElsewhere(st: State, form: Form, q: Path)
    requires form.Ok() && Tree(st.store) && Capture(st, form).1
    requires Elsewhere(form, |form.inputs|, |form.boxes|, q)
    ensures Get(Capture(st, form).0.store, q) == Get(st.store, q)
  {
    InputsDone(st, form, |form.boxes|);
    InputsElsewhere(st, form, 0, |form.inputs|, q);
    BoxesElsewhere(st, form, 0, |form.boxes|, q);
  }

  /** A field finds at its turn what it would have found at the start. */
  lemma {:induction false} InputAtTurn(st: State, form: Form, i: nat)
    requires form.Ok() && Apart(form) && Tree(st.store) && i < |form.inputs| && CaptureInputs(st, form, |form.inputs|).1
    ensures var before := CaptureInputs(st, form, i).0;
            && Tree(before.store) && (InputQuiet(before, form, i) <==> InputQuiet(st, form, i))
            && Get(before.store, form.inputs[i].path) == Get(st.store, form.inputs[i].path)
  {
    assert Elsewhere(form, i, |form.boxes|, form.inputs[i].path);
    TextsRemembered(st, form, |form.inputs|, i);
    InputsElsewhere(st, form, 0, i, form.inputs[i].path);
  }

  lemma {:induction false} BoxAtTurn(st: State, form: Form, j: nat)
    requires form.Ok() && Apart(form) && Tree(st.store) && j < |form.boxes| && CaptureBoxes(st, form, j).1
    ensures var before := CaptureBoxes(st, form, j).0;
            && Tree(before.store) && (BoxQuiet(before, form, j) <==> BoxQuiet(st, form, j))
            && Get(before.store, form.boxes[j].path) == Get(st.store, form.boxes[j].path)
  {
    assert Elsewhere(form, |form.inputs|, j, form.boxes[j].path);
    MarksUntouched(st, form, j);
    InputsDone(st, form, j);
    InputsElsewhere(st, form, 0, |form.inputs|, form.boxes[j].path);
    BoxesElsewhere(st, form, 0, j, form.boxes[j].path);
  }

  /** Each field's path ends with the field's value when it was edited, else with what it showed. */
  lemma {:induction false} InputCaptured(st: State, form: Form, i: nat)
    requires form.Ok() && Apart(form) && Tree(st.store) && Capture(st, form).1 && i < |form.inputs|
    ensures var input := form.inputs[i];
            var after := Get(Capture(st, form).0.store, input.path);
            if !Taken(st, form, i) then after == Get(st.store, input.path)
            else if input.kind != NumberBox then after == Some(Text(input.value))
            else if input.parsed.None? then after == Some(Null)
            else && after.Some? && after.value.Number?
                 && after.value.r == if input.scale.Some? then input.parsed.value * input.scale.value else input.parsed.value
  {
    hide Capture, Get, Apart, Tree, InputQuiet, Taken;
    InputEnds(st, form, i);
    TakenIs(st, form, i);
  }

  lemma {:induction false} InputEnds(st: State, form: Form, i: nat)
    requires form.Ok() && Apart(form) && Tree(st.store) && Capture(st, form).1 && i < |form.inputs|
    ensures Get(Capture(st, form).0.store, form.inputs[i].path) ==
            if InputQuiet(st, form, i) then Get(st.store, form.inputs[i].path) else Some(ValueOf(form.inputs[i]))
  {
    var p := form.inputs[i].path;
    assert Elsewhere(form, i, |form.boxes|, p);
    InputsDone(st, form, |form.boxes|);
    InputAtTurn(st, form, i);
    InputsElsewhere(st, form, i + 1, |form.inputs|, p);
    BoxesElsewhere(st, form, 0, |form.boxes|, p);
    SetShape(CaptureInputs(st, form, i).0.store, p, ValueOf(form.inputs[i]));
  }

  lemma {:induction false} BoxCaptured(st: State, form: Form, j: nat)
    requires form.Ok() && Apart(form) && Tree(st.store) && Capture(st, form).1 && j < |form.boxes|
    ensures var box := form.boxes[j];
            Get(Capture(st, form).0.store, box.path) ==
            if box.checked == (if j in st.marks then st.marks[j] else box.initial) then Get(st.store, box.path)
            else Some(Flag(box.checked))
  {
    var p := form.boxes[j].path;
    assert Elsewhere(form, |form.inputs|, j, p);
    BoxesElsewhere(st, form, j + 1, |form.boxes|, p);
    BoxAtTurn(st, form, j);
    SetShape(CaptureBoxes(st, form, j).0.store, p, Flag(form.boxes[j].checked));
  }

  /** What a capture that went through remembers: of each field that was taken its text, and of each checkbox
      its mark; of a blank password that stays, what was remembered before. */
  lemma {:induction false} Remembers(st: State, form: Form, i: nat)
    requires form.Ok() && Capture(st, form).1
    ensures var after := Capture(st, form).0;
            && (i < |form.inputs| ==>
                  var input := form.inputs[i];
                  var was, now := if i in st.texts then st.texts[i] else input.initial,
                                  if i in after.texts then after.texts[i] else input.initial;
                  now == input.value || (now == was && input.kind == PasswordBox && input.value == ""))
            && (i < |form.boxes| ==>
                  form.boxes[i].checked == if i in after.marks then after.marks[i] else form.boxes[i].initial)
  {
    MarksUntouched(st, form, |form.boxes|);
    InputsDone(st, form, |form.boxes|);
    if i < |form.inputs| {
      TextsRemembered(st, form, |form.inputs|, i);
    }
    if i < |form.boxes| {
      BoxesRemembered(st, form, |form.boxes|, i);
    }
  }

  /** An edited number box without a number unsets its path: whoever reads it gets the default. */
  lemma {:induction false} BlankNumberReadsDefault(st: State, form: Form, i: nat, dflt: Plain)
    requires form.Ok() && Apart(form) && Tree(st.store) && Capture(st, form).1 && i < |form.inputs|
    requires form.inputs[i].kind.NumberBox? && form.inputs[i].parsed.None? && !InputQuiet(st, form, i)
    ensures GetByPathOf(Capture(st, form).0.store, form.inputs[i].path, dflt) == dflt
  {
    InputEnds(st, form, i);
  }

  /** A number shown in a unit is stored as it was. */
  lemma {:induction false} UnitScaleRestores(input: Input, r: real, s: real)
    requires input.kind.NumberBox? && s != 0.0 && input.scale == Some(s) && input.parsed == Some(r / s)
    ensures ValueOf(input) == Number(r)
  {
    assert r / s * s == r;
  }

  /** A password left blank keeps the stored one. */
  lemma {:induction false} BlankPasswordKept(st: State, form: Form, i: nat)
    requires form.Ok() && Apart(form) && Tree(st.store) && Capture(st, form).1 && i < |form.inputs|
    requires BlankPassword(form.inputs[i]) && Stored(st, form.inputs[i])
    ensures Get(Capture(st, form).0.store, form.inputs[i].path) == Get(st.store, form.inputs[i].path)
  {
    InputEnds(st, form, i);
  }

  /** Such a form keeps its passwords. */
  lemma {:induction false} ApartKeepsPasswords(form: Form)
    requires Apart(form)
    ensures KeepsPasswords(form)
  {
    forall i | 0 <= i < |form.inputs| && form.inputs[i].kind.PasswordBox? ensures KeepsPassword(form, i) {
      assert Elsewhere(form, i, |form.boxes|, form.inputs[i].path);
    }
  }

  /** With one path in two fields it need not be: a cleared password kept on the first capture is written
      blank by the second, because the other field has blanked the stored one. */
  lemma {:induction false} SharedPathCapturedTwice() returns (st: State, g: Form)
    ensures |g.inputs| == 2 && g.boxes == [] && g.inputs[0].path == g.inputs[1].path == ["a"]
    ensures g.inputs[0].kind == PasswordBox && g.inputs[1].kind == OtherBox
    ensures g.Ok() && Tree(st.store) && Capture(st, g).1 && !AgainIsSame(st, g)
  {
    var f := Form([Input(["a"], PasswordBox, "", "", None, None), Input(["a"], OtherBox, "", "", None, None)], []);
    assert InputWipes(f, 0, 1);
    st, g := WipedForm(f);
  }
}
