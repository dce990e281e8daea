/** The reducer-driven name/email form: its state record, the reducer that
    applies one action to it, the change handler that turns an input event
    into an action, and the submit handler that validates the name. */
module Form4 {
  import opened JsString

  datatype Option<T> = None | Some(value: T)

  /** The two inputs of the form, rendered with the names "nome" and "email". */
  datatype Field = Nome | Email

  /** The form's state: both field values and the per-field error messages,
      keyed by field name (only "nome" is ever written). */
  datatype FormState = FormState(nome: string, email: string, errors: map<string, string>)

  /** The actions the reducer is dispatched: SET_FIELD, SET_ERROR, and any
      action whose type is neither of them. */
  datatype Action =
    | SetField(field: Field, value: string)
    | SetError(key: string, message: string)
    | Unknown

  /** What the submit handler announces on an accepted submission. */
  datatype Report = Report(nome: string, email: string)

  /** The state after a submission and what it reported, if anything. */
  datatype SubmitResult = SubmitResult(next: FormState, report: Option<Report>)

  /** An input's change event: the input's name and its new value. */
  datatype InputEvent = InputEvent(name: Field, value: string)

  const NomeKey: string := "nome"
  const RequiredMessage: string := "O campo nome é obrigatório."

  const InitialState: FormState := FormState("", "", map[NomeKey := ""])

  /** The value a field holds in s. */
  function FieldValue(s: FormState, f: Field): string {
    match f
    case Nome => s.nome
    case Email => s.email
  }

  /** The name field's error message; a missing entry reads as no message. */
  function NameError(s: FormState): string {
    if NomeKey in s.errors then s.errors[NomeKey] else ""
  }

  /** The red message under the name input is rendered exactly when the
      name's error message is non-empty. */
  predicate ErrorShown(s: FormState) {
    NameError(s) != ""
  }

  /** The shape every reachable state keeps: the name always has an entry,
      so the message under the name input reads a string the form wrote and
      never a missing property. The controller keeps it as its invariant. */
  predicate Valid(s: FormState) {
    NomeKey in s.errors
  }

  /** The reducer: SET_FIELD overwrites one field, SET_ERROR one error entry,
      and every other action leaves the state as it is. */
  function Reduce(s: FormState, a: Action): (r: FormState)
    ensures a.SetField? ==>
      FieldValue(r, a.field) == a.value
      && (forall f :: f != a.field ==> FieldValue(r, f) == FieldValue(s, f))
      && r.errors == s.errors
    ensures a.SetError? ==>
      r.nome == s.nome && r.email == s.email
      && r.errors.Keys == s.errors.Keys + {a.key}
      && r.errors[a.key] == a.message
      && (forall k :: k in s.errors && k != a.key ==> r.errors[k] == s.errors[k])
    ensures a.Unknown? ==> r == s
  {
    match a
    case SetField(Nome, v) => s.(nome := v)
    case SetField(Email, v) => s.(email := v)
    case SetError(k, m) => s.(errors := s.errors[k := m])
    case Unknown => s
  }

  /** The change handler's action: in every state it gives the input that
      changed its new value and leaves the other field and the error
      messages as they were. */
  function ChangeAction(ev: InputEvent): (a: Action)
    ensures forall s: FormState ::
      FieldValue(Reduce(s, a), ev.name) == ev.value
      && (forall f :: f != ev.name ==> FieldValue(Reduce(s, a), f) == FieldValue(s, f))
      && Reduce(s, a).errors == s.errors
  {
    SetField(ev.name, ev.value)
  }

  /** The one action the submit handler dispatches: the required-field
      message when the trimmed name is empty, otherwise a cleared message. */
  function SubmitAction(s: FormState): (a: Action)
    ensures a.SetError? && a.key == NomeKey
    ensures IsBlank(s.nome) ==> a.message == RequiredMessage
    ensures !IsBlank(s.nome) ==> a.message == ""
  {
    TrimEmptyIffBlank(s.nome);
    if Trim(s.nome) == "" then SetError(NomeKey, RequiredMessage) else SetError(NomeKey, "")
  }

  /** A submission: one dispatch of SubmitAction, and a report of the
      values the form held when it was submitted unless the name was blank. */
  function Submit(s: FormState): (r: SubmitResult)
    ensures r.next == Reduce(s, SubmitAction(s))
    ensures r.next.nome == s.nome && r.next.email == s.email
    ensures Valid(r.next)
    ensures NameError(r.next) == (if IsBlank(s.nome) then RequiredMessage else "")
    ensures ErrorShown(r.next) <==> IsBlank(s.nome)
    ensures r.report.None? <==> IsBlank(s.nome)
    ensures r.report.Some? ==> r.report.value == Report(s.nome, s.email)
  {
    var next := Reduce(s, SubmitAction(s));
    TrimEmptyIffBlank(s.nome);
    if Trim(s.nome) == "" then SubmitResult(next, None)
    else SubmitResult(next, Some(Report(s.nome, s.email)))
  }

  /** The form mounts with both fields empty and no message shown. */
  lemma InitialStateEmpty()
    ensures InitialState.nome == "" && InitialState.email == ""
    ensures Valid(InitialState) && NameError(InitialState) == ""
    ensures !ErrorShown(InitialState)
  {
  }

  /** Every action keeps the name's error entry in place. */
  lemma ReducePreservesValid(s: FormState, a: Action)
    requires Valid(s)
    ensures Valid(Reduce(s, a))
  {
  }

  /** Dispatching the same SET_FIELD or SET_ERROR twice is dispatching it once;
      so is any unknown action. */
  lemma ReduceIdempotent(s: FormState, a: Action)
    ensures Reduce(Reduce(s, a), a) == Reduce(s, a)
  {
    if a.SetError? {
      assert Reduce(s, a).errors[a.key := a.message] == Reduce(s, a).errors;
    }
  }

  /** Submitting again without editing changes nothing and reports the same. */
  lemma SubmitTwice(s: FormState)
    ensures Submit(Submit(s).next) == Submit(s)
  {
    var n := Submit(s).next;
    assert n.errors[NomeKey := NameError(n)] == n.errors;
  }

  /** After an accepted submission, clearing the name (or setting it to only
      white space) and submitting again raises the required-field error:
      nothing of the earlier acceptance is carried over. */
  lemma ResubmitAfterClearing(s: FormState, blank: string)
    requires !IsBlank(s.nome) && IsBlank(blank)
    ensures Submit(s).report == Some(Report(s.nome, s.email))
    ensures
      var cleared := Reduce(Submit(s).next, SetField(Nome, blank));
      Submit(cleared).report.None? && NameError(Submit(cleared).next) == RequiredMessage
  {
  }

  /** Of two SET_ERRORs on the same key, only the later message remains. */
  lemma SetErrorLastWins(s: FormState, k: string, m1: string, m2: string)
    ensures Reduce(Reduce(s, SetError(k, m1)), SetError(k, m2)) == Reduce(s, SetError(k, m2))
  {
    assert s.errors[k := m1][k := m2] == s.errors[k := m2];
  }

  /** The outcome of a submission depends only on whether the name is blank,
      never on the error message left by an earlier one. */
  lemma SubmitIgnoresPriorError(s: FormState, m: string)
    ensures Submit(Reduce(s, SetError(NomeKey, m))) == Submit(s)
  {
    var s' := Reduce(s, SetError(NomeKey, m));
    var a := SubmitAction(s);
    assert SubmitAction(s') == a by {
      assert s'.nome == s.nome;
    }
    calc {
      Submit(s').next;
      Reduce(s', a);
      { SetErrorLastWins(s, NomeKey, m, a.message); }
      Reduce(s, a);
      Submit(s).next;
    }
    assert Submit(s').report == Submit(s).report;
  }

  /** Empty and spaces-only names are rejected with the fixed message. */
  lemma RejectsBlankNames(email: string)
    ensures NameError(Submit(InitialState.(email := email)).next) == RequiredMessage
    ensures Submit(InitialState.(email := email)).report == None
    ensures NameError(Submit(InitialState.(nome := "   ", email := email)).next) == RequiredMessage
    ensures Submit(InitialState.(nome := "   ", email := email)).report == None
  {
    assert IsBlank(InitialState.(email := email).nome);
    var spaces := InitialState.(nome := "   ", email := email);
    assert IsBlank(spaces.nome) by {
      assert forall i :: 0 <= i < 3 ==> "   "[i] == ' ';
    }
  }

  /** A real name is accepted: the stale message is cleared and the data reported. */
  lemma AcceptsName()
    ensures
      var s := FormState("Ana", "a@b.com", map[NomeKey := RequiredMessage]);
      NameError(Submit(s).next) == "" && Submit(s).report == Some(Report("Ana", "a@b.com"))
  {
    assert !IsWhitespace("Ana"[0]);
  }

  /** The form component, holding the state useReducer keeps for it. */
  class Controller {
    var state: FormState

    /** The component mounts with the initial state. */
    constructor ()
      ensures state == InitialState && Valid(state)
    {
      state := InitialState;
    }

    /** dispatch: the reducer's result replaces the state. */
    method Dispatch(a: Action)
      requires Valid(state)
      modifies this
      ensures state == Reduce(old(state), a) && Valid(state)
    {
      ReducePreservesValid(state, a);
      state := Reduce(state, a);
    }

    /** handleChange: one SET_FIELD for the input that changed; the other
        field and the error messages stay as they were. */
    method OnFieldChange(ev: InputEvent)
      requires Valid(state)
      modifies this
      ensures state == Reduce(old(state), ChangeAction(ev)) && Valid(state)
      ensures FieldValue(state, ev.name) == ev.value
      ensures forall f :: f != ev.name ==> FieldValue(state, f) == FieldValue(old(state), f)
      ensures state.errors == old(state.errors)
    {
      Dispatch(ChangeAction(ev));
    }

    /** handleSubmit: one SET_ERROR dispatch, and the report of the values
        the form held when it was submitted unless the name was blank. */
    method OnSubmit() returns (report: Option<Report>)
      requires Valid(state)
      modifies this
      ensures Submit(old(state)) == SubmitResult(state, report) && Valid(state)
      ensures state.nome == old(state.nome) && state.email == old(state.email)
      ensures ErrorShown(state) <==> IsBlank(old(state.nome))
      ensures report.None? <==> IsBlank(old(state.nome))
      ensures report.Some? ==> report.value == Report(old(state.nome), old(state.email))
    {
      var snapshot := state;
      if Trim(snapshot.nome) == "" {
        Dispatch(SetError(NomeKey, RequiredMessage));
        report := None;
      } else {
        Dispatch(SetError(NomeKey, ""));
        report := Some(Report(snapshot.nome, snapshot.email));
      }
      TrimEmptyIffBlank(snapshot.nome);
    }
  }
}
