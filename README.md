# Form4: a reducer-driven name/email form

A Dafny model of the fourth form component of a small React project. The
component keeps a record `{nome, email, errors}` in `useReducer`. A reducer
applies `SET_FIELD` (overwrite the value of one input) and `SET_ERROR`
(overwrite one entry of `errors`) and ignores every other action. Each input's
change event dispatches one `SET_FIELD`. On submit, the component checks that
the name is not empty once white space is trimmed. If it is, it dispatches the
fixed message `O campo nome é obrigatório.`. Otherwise it dispatches a cleared
message and announces the name and e-mail.

- `js_string.dfy` (module `JsString`): the white-space set of JavaScript's
  `String.prototype.trim` (the ECMAScript WhiteSpace and LineTerminator
  productions), `Trim`, and the fact that a trimmed string is empty exactly
  when every character is white space.
- `form4.dfy` (module `Form4`): the state, actions and reducer as datatypes
  and functions. The change and submit handlers as functions (`ChangeAction`,
  `SubmitAction`, `Submit`). The component as a class `Controller` whose
  `state` field its `Dispatch`, `OnFieldChange` and `OnSubmit` methods replace,
  one dispatch at a time. The predicate `ErrorShown` states when the red
  message under the name input is rendered: exactly when `errors.nome` is
  non-empty (a missing entry reads as no message).

Modelling choices:
- `errors` is a `map<string, string>`, as the source's object with a computed
  key is. It starts as `{"nome": ""}`, and `SET_ERROR` may write any key.
- The field of `SET_FIELD` is the enumeration `Field = Nome | Email`. Only the
  two inputs named `nome` and `email` call the change handler.
- An action whose type is neither `SET_FIELD` nor `SET_ERROR` is `Unknown`.
- The `alert` becomes the `Report(nome, email)` that `Submit` and `OnSubmit`
  return. It carries the values the form held when submit was pressed. The
  source reads its render-time `state` there, and `OnSubmit` reads a snapshot
  taken before the dispatch.
- `Submit` and `OnSubmit` test `Trim(nome) == ""`, as the source does. Their
  contracts say the same thing as `IsBlank(nome)`, through
  `JsString.TrimEmptyIffBlank`.

## Model

| member | source | states |
|---|---|---|
| JsString.TrimStart | src/components/Form4/index.jsx:51 | The result is a suffix of the input. The dropped prefix is all white space, and the result is empty or starts with a non-white-space character. |
| JsString.TrimEnd | src/components/Form4/index.jsx:51 | The result is a prefix of the input. The dropped suffix is all white space, and the result is empty or ends with a non-white-space character. |
| JsString.Trim | src/components/Form4/index.jsx:51 | The result is a substring `s[i..j]` with blank prefix `s[..i]` and blank suffix `s[j..]`. It neither starts nor ends with white space. |
| JsString.TrimEmptyIffBlank | src/components/Form4/index.jsx:51 | `nome.trim() === ''` holds if and only if every character of `nome` is white space. |
| Form4.Reduce | src/components/Form4/index.jsx:13-31 | SET_FIELD gives the named field the value and leaves the other field and `errors` unchanged. SET_ERROR sets `errors[key]`, adds only that key, and leaves `nome`, `email` and every other entry unchanged. Any other action returns the state unchanged. The reducer is total. |
| Form4.ReducePreservesValid | src/components/Form4/index.jsx:13-31 | No action removes the `nome` entry from `errors`. |
| Form4.ReduceIdempotent | src/components/Form4/index.jsx:15-29 | Applying the same action twice gives the same state as applying it once. |
| Form4.SetErrorLastWins | src/components/Form4/index.jsx:20-27 | Of two SET_ERRORs on the same key, only the later message remains. |
| Form4.InitialStateEmpty | src/components/Form4/index.jsx:4-10 | The initial state has empty `nome`, empty `email` and an empty `errors.nome`, so no error is shown. |
| Form4.ChangeAction | src/components/Form4/index.jsx:37-44 | The action a change event dispatches gives, in every state, the changed input its new value and leaves the other field and the error messages unchanged. |
| Form4.SubmitAction | src/components/Form4/index.jsx:50-62 | Submit dispatches exactly one SET_ERROR, on key `nome`. Its message is the required-field message when the name is blank, and `''` otherwise. |
| Form4.Submit | src/components/Form4/index.jsx:47-65 | The new state is the reducer applied to the one `SubmitAction`, so `nome`, `email` and the other error entries are unchanged. If the name is blank, it sets the required-field message and reports nothing. Otherwise it clears the message and reports exactly `(nome, email)`. The error is shown exactly when the name was blank. |
| Form4.SubmitTwice | src/components/Form4/index.jsx:47-65 | Submitting a second time without editing gives the same state and the same report. |
| Form4.SubmitIgnoresPriorError | src/components/Form4/index.jsx:51-62 | The outcome of a submission does not depend on the message an earlier one left in `errors.nome`. |
| Form4.ResubmitAfterClearing | src/components/Form4/index.jsx:47-65 | After an accepted submission, setting the name to a blank value and submitting again re-raises the required-field error with no report. |
| Form4.RejectsBlankNames | src/components/Form4/index.jsx:51-56 | The names `""` and `"   "` are rejected with the required-field message and no report. |
| Form4.AcceptsName | src/components/Form4/index.jsx:57-63 | For the name `"Ana"`, an earlier message is cleared and `("Ana", "a@b.com")` is reported. |
| Form4.Controller.constructor | src/components/Form4/index.jsx:34 | The component mounts with the initial state, in which the name has an error entry. |
| Form4.Controller.Dispatch | src/components/Form4/index.jsx:34 | A dispatch replaces the state with the reducer's result and keeps the name's error entry. |
| Form4.Controller.OnFieldChange | src/components/Form4/index.jsx:37-44 | The changed input's field takes the new value. The other field and `errors` are unchanged. |
| Form4.Controller.OnSubmit | src/components/Form4/index.jsx:47-65 | The new state and the report are those of `Submit` on the old state. `nome` and `email` are unchanged. The error is shown, and nothing is reported, exactly when the old name was blank. Otherwise the report is the old `(nome, email)`. |

## Left out

- Rendering: the JSX, labels, styling and the red error `<div>` (lines 67-92). `ErrorShown` states only when that `<div>` appears.
- The `alert` call (line 63) and the text of its message. It is modelled as the returned `Report`.
- `event.preventDefault()` and React's scheduling of dispatches (lines 34, 48). Each dispatch is applied synchronously, in order.
- The e-mail input's `type="email"` (line 83) is browser behaviour. The code does no e-mail validation, and the model adds none.
- `IsWhitespace` lists the Unicode space separators (category Zs) as Unicode defines them today. A JavaScript engine built on another Unicode version may differ.
- `SET_FIELD` with a field name other than `nome` or `email`: with a computed key, JavaScript would add or overwrite that top-level property. No input of the form has such a name.
- The other three form components. Form1 and Form3 hold only a state setter and an alert; Form2 reads an uncontrolled input through a ref at submit time. None of them has decision logic.
- A Dafny `string` is a sequence of Unicode scalar values, while a JavaScript string is a sequence of UTF-16 code units and may hold lone surrogates. The model cannot represent such strings; for `trim` this changes nothing, since no white-space character is a surrogate.
