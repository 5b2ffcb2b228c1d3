# Editing widgets: text-buffer binding, structured-value bridge, quick form

This project models the logic core of a small set of React editing widgets
and proves properties of that model.

- **`MonacoEditor`** (module `Monaco`, `monaco.dfy`) binds an external code
  editor to declarative props. It keeps a snapshot of its configuration
  (`loading, value, filepath, language, className, width, height`). On every
  update, `shouldComponentUpdate` builds a hint of `[old, new]` pairs for the
  fields that differ by strict inequality. `render` then applies the hint to
  the one live text model:
  - a new `filepath` creates a new model from the current buffer text,
    rebinds the editor to it and disposes the old model;
  - a new `value` calls `setValue`;
  - a new `language` calls `setModelLanguage` on the model captured before
    the loop.

  `handleContentChange` reports the buffer text to `onChange` only when it
  differs from the recorded value. The editor runtime is a store of text
  models (`seq<TextModel>`, handles are indices). `disposals` counts the
  `dispose()` calls each model received. The component is a class whose
  methods are proved against pure functions: `Diff` for the hint, `ApplyHint`
  for what the render loop does, and `Expected` as an independent closed form
  of one reconcile pass.
- **`JSONEditor`** (module `JsonEditor`, `json_editor.dfy`) shows a value as
  JSON or YAML text. `restore` serialises the value with the current mode's
  serialiser, which may produce no text; `apply` parses text with the mode's
  parser, which may fail. A successful `apply`
  raises the suppression flag, cancels any pending reset timer, sets exactly
  one new timer and passes the value to `onChange`. While suppression is on,
  the automatic restore effect is skipped. The serialisers and parsers are
  uninterpreted function values supplied at construction. Timers are explicit
  events (`TimerFires`). The editor's path and language are functions of the
  mode, linked back to `Monaco` by `ModeSwitchRebinds`.
- **`makeForm`** (module `QuickForm`, `quick_form.dfy`) infers a field's
  widget type from its default value; the form it returns builds the default
  record (`getDefault`) and commits one key at a time (`commit`,
  `handleFile`). Field schemas are objects (`class Field`) because `makeForm`
  writes `type` into field objects it shares with the caller's schema.
  Separately, the module-level `genID` hands out counter-based element ids to
  each form row (`FormItem`); it is the `IdGenerator` class.

`common.dfy` holds `Option` and the JavaScript values the widgets pass around.

## Model

| member | source | states |
|---|---|---|
| `Monaco.InitialState` | monaco/index.tsx:19-28 | A fresh component is loading, has empty value, path, class and sizes, and language `javascript`. |
| `Monaco.DeriveDefaults` | monaco/index.tsx:88-97 | The derived state copies `value` and `filepath`. A truthy `language`, `className`, `width` or `height` is copied; a falsy one (absent, `''`, or a width or height of `0`) becomes `javascript` for the language and `''` for the others. `loading` is kept, and the previous state matters only through `loading`. |
| `Monaco.Rank` | monaco/index.tsx:20-28 | Every key has a position in the state's key order. |
| `Monaco.RankOfPosition` | monaco/index.tsx:20-28 | The key order lists each key once. |
| `Monaco.DiffOverSpec` | monaco/index.tsx:105-112 | Each hint entry built over a key list is a key of that list, holding its old and new values, which differ. Every key of the list whose values differ is in the hint. |
| `Monaco.DiffPrefixOrdered` | monaco/index.tsx:105-112 | The hint lists keys in the state's key order, so no key appears twice. |
| `Monaco.DiffSpec` | monaco/index.tsx:101-115 | A key is in the hint iff its old and new values differ by strict inequality. Each entry is `[old, new]`. Entries follow the key order. The hint is empty iff the snapshots are equal. |
| `Monaco.ApplyEntry` | monaco/index.tsx:124-137 | Handling one hint key never removes a model from the store. |
| `Monaco.ApplyHint` | monaco/index.tsx:121-139 | Handling the hint in order against the captured model only ever adds models to the store. |
| `Monaco.ApplyDiffStep` | monaco/index.tsx:105-138 | Visiting one more key changes the pass by that key's handling exactly when the key's values differ. |
| `Monaco.StageStep` | monaco/index.tsx:124-137 | Each stage of a pass is the previous one with the next key of the state's order handled exactly when its values differ; only `value`, `filepath` and `language` touch a model. |
| `Monaco.ReconcilePrefix` | monaco/index.tsx:105-138 | The render loop over the hint built from the first `i` keys ends in the `i`-th stage: nothing after `loading`, the value step after `value`, the path step after `filepath`, the language step from `language` on. |
| `Monaco.ExpectedSteps` | monaco/index.tsx:124-137 | The closed form is the value step, then the path step, then the language step, in key order. |
| `Monaco.ReconcileIsExpected` | monaco/index.tsx:121-139 | The render loop over the diff's hint does exactly what the closed form `Expected` says. |
| `Monaco.ReconcileUnchanged` | monaco/index.tsx:105-139 | Idempotence: with an unchanged snapshot, the pass leaves every model and the binding as they were. |
| `Monaco.ReconcilePresentational` | monaco/index.tsx:121-147 | When only `loading`, `className`, `width` or `height` change, no model or binding changes. |
| `Monaco.ReconcileRebind` | monaco/index.tsx:125-133 | A new path adds one model and binds both the editor and `this.model` to it. The new model holds the old model's current text (after this pass's `setValue`), the new language and the new path. The old model is disposed exactly once. Every other model is untouched. |
| `Monaco.ReconcileInPlace` | monaco/index.tsx:134-137 | With the same path, the held model stays bound. A new value replaces its text. A new language replaces only its language. Every other model is untouched. |
| `Monaco.ReconcileStaleLanguage` | monaco/index.tsx:123-136 | When path and language change together, `setModelLanguage` lands on the old, already disposed model. The new model already has the new language from its creation. |
| `Monaco.ReconcileKeepsOneLive` | monaco/index.tsx:125-133 | A pass keeps exactly one undisposed model, the held and bound one. Every other model is disposed exactly once. |
| `Monaco.Emit` | monaco/index.tsx:44-50 | `onChange` is called iff the buffer text differs from the recorded value, and receives that text. Afterwards the recorded value is the buffer text. |
| `Monaco.EmitTwiceSilent` | monaco/index.tsx:44-50 | A second emission with no edit in between calls nothing. |
| `Monaco.MonacoEditor.constructor` | monaco/index.tsx:33-42 | The component starts loading, with the derived initial state, no models and an empty hint. |
| `Monaco.MonacoEditor.ShouldComponentUpdate` | monaco/index.tsx:101-115 | The `for…in` loop stores `Diff(state, next)` as the hint and returns true iff the snapshots differ. |
| `Monaco.MonacoEditor.Render` | monaco/index.tsx:117-148 | While loading, no model operation happens. Otherwise the models and binding become `ApplyHint` of the hint against the model captured once before the loop. Render returns the class `x-monaco-editor <className>` and the width/height style. |
| `Monaco.MonacoEditor.Update` | monaco/index.tsx:101-148 | One update stores the hint and replaces the state. It renders iff something changed. While loading it touches no model; otherwise the store becomes `Expected(old, prev, next)`. It keeps the one-live-model invariant. |
| `Monaco.MonacoEditor.ReceiveProps` | monaco/index.tsx:88-147 | New props give state `Derive(props, state)`, and the hint is `Diff` of the old and new state. It renders iff the state changed, and the view is then `x-monaco-editor <className>` with the new width and height. While loading no model is touched; otherwise the store becomes `Expected` of the old and new state. The one-live-model invariant is kept. |
| `Monaco.MonacoEditor.EditorReady` | monaco/index.tsx:53-71 | Once the runtime is there, one model is created from the current state's value, language and path, and the editor is bound to it. Then clearing `loading` runs an update against that model: the hint is `Diff` of the old and new state, the store becomes `Expected` from that one model, and the component always re-renders with class `x-monaco-editor <className>` and the new width and height. |
| `Monaco.MonacoEditor.UserEdit` | monaco/index.tsx:63 | A user edit changes only the live model's text. |
| `Monaco.MonacoEditor.HandleContentChange` | monaco/index.tsx:44-50 | Emits per `Emit` and writes the buffer text into `state.value`. |
| `Monaco.MonacoEditor.Unmount` | monaco/index.tsx:76-81 | It first flushes (emission on the text before disposal), then disposes the editor and the held model. The state changes only in `value`, which becomes the flushed buffer text. Afterwards every model has been disposed exactly once and keeps its text. It requires a ready editor. |
| `JsonEditor.ModeOf` | JSONEditor/index.tsx:21-22 | The mode is `props.mode`, defaulting to `json`. |
| `JsonEditor.ModeDeterminesEditor` | JSONEditor/index.tsx:86-91 | The editor's path and language are functions of the mode, and each differs iff the mode differs. |
| `JsonEditor.ModeSwitchRebinds` | JSONEditor/index.tsx:86-93 | A mode switch changes the child editor's `filepath` and `language` in the same update. Both keys are in its hint (so it rebinds, per `ReconcileRebind`), and the new path and language are the new mode's. |
| `JsonEditor.WrapperClassAsWrittenShowsUndefined` | JSONEditor/index.tsx:73 | As written, an absent `className` renders as the class `jsonEditor undefined`. |
| `JsonEditor.WrapperClass` | JSONEditor/index.tsx:73 | As intended, an absent class name gives `jsonEditor `, and a given one is appended. |
| `JsonEditor.Restored` | JSONEditor/index.tsx:24-27 | After restore the text is the serialisation when the serialiser gives one, and the previous text when it gives none. |
| `JsonEditor.JsonEditor.constructor` | JSONEditor/index.tsx:17-56 | On mount the mode is `props.mode` or `json`. Nothing is suppressed, no timer is pending, and the text, which starts as `''`, is what the first restore effect leaves: the value serialised in that mode, or `''` if the serialiser gives no text. |
| `JsonEditor.JsonEditor.Restore` | JSONEditor/index.tsx:24-27 | The JSON serialiser is used in `json` mode and the YAML one in `yaml` mode. If it gives text, that is the new text; if not, the failure is reported and the text is unchanged. |
| `JsonEditor.JsonEditor.RestoreEffect` | JSONEditor/index.tsx:54-56 | The effect writes the text only when suppression is off, and reports a failure exactly when it ran and the serialiser gave no text. |
| `JsonEditor.JsonEditor.Apply` | JSONEditor/index.tsx:33-52 | If the text parses in the current mode: suppression is on, the pending timer is cancelled and replaced by one fresh timer (the only one outstanding), and `onChange` receives the parsed value. If it fails: nothing is notified and flag, timer and timers are unchanged. |
| `JsonEditor.JsonEditor.TimerFires` | JSONEditor/index.tsx:42-45 | Only an outstanding timer fires. Then suppression is off and the timer ref and the set of pending timers are empty. |
| `JsonEditor.JsonEditor.DataChanged` | JSONEditor/index.tsx:24-56 | A new value is redisplayed in the current mode unless suppression is on; a serialiser failure is reported and keeps the text. |
| `JsonEditor.JsonEditor.SelectMode` | JSONEditor/index.tsx:54-81 | Choosing a different mode redisplays the value in that mode unless suppression is on; a serialiser failure is reported and keeps the text. Choosing the current mode does nothing. |
| `JsonEditor.JsonEditor.PropsModeChanged` | JSONEditor/index.tsx:21-22 | The `props.mode` effect selects `props.mode || 'json'`, with `SelectMode`'s outcome. |
| `JsonEditor.JsonEditor.EditorChanged` | JSONEditor/index.tsx:89 | The editor's `onChange` sets the text. |
| `JsonEditor.JsonEditor.ChildProps` | JSONEditor/index.tsx:86-93 | The child editor gets the text as value, `inmemory://model/<uuid>.<mode>` as path and the mode name as language. |
| `JsonEditor.SubmitAndEcho` | JSONEditor/index.tsx:33-56 | Feedback-loop suppression: after a successful submit, the owner passing the committed value back in does not redisplay the text. |
| `QuickForm.InferSpec` | quickForm/index.tsx:113-120 | Inference maps a string to `string`, a number to `number`, a boolean to `boolean` and a Blob to `file` (each iff). Everything else gets `readonly`, and inference never picks `textarea`. |
| `QuickForm.ResolveSettles` | quickForm/index.tsx:111-121 | An explicit `type` is kept. Resolving a resolved field changes nothing. |
| `QuickForm.MakeForm` | quickForm/index.tsx:109-121 | The shallow copy shares the caller's field objects. Afterwards every field of the caller's schema has its declared type, or the type inferred from its value. |
| `QuickForm.GetDefault` | quickForm/index.tsx:143-149 | The record's keys are exactly the schema's keys, each mapped to that field's `value`. |
| `QuickForm.Commit` | quickForm/index.tsx:127-129 | The committed record equals the current one except that `key` maps to `val`; every other key is unchanged. |
| `QuickForm.CommitLaws` | quickForm/index.tsx:127-137 | Committing a key the record has keeps its keys. A later commit of the same key overrides an earlier one. Committing a key's own value is the identity. |
| `QuickForm.HandleFile` | quickForm/index.tsx:32-36 | An empty file list commits nothing; otherwise the first file is committed. |
| `QuickForm.Decimal` | quickForm/index.tsx:19 | A counter prints as at least one digit, and as exactly one iff it is below ten. |
| `QuickForm.DecimalInjective` | quickForm/index.tsx:19 | Different counters print differently. |
| `QuickForm.IdOfInjective` | quickForm/index.tsx:18-19 | Two ids are equal iff their counter values are. |
| `QuickForm.IdGenerator.constructor` | quickForm/index.tsx:18 | The counter starts at zero with no ids issued. |
| `QuickForm.IdGenerator.GenID` | quickForm/index.tsx:18-19 | The counter goes up by one. The id is `randID-<counter>` and was never issued before, so any two calls give distinct ids. |
| `QuickForm.Field.constructor` | quickForm/index.tsx:4-10 | A field schema holds an optional caption, an optional type and a default value. |

## Behaviour worth noting

- `componentWillUnmount` calls `this.editor.dispose()` and `this.model.dispose()` unguarded (monaco/index.tsx:76-79), so `Unmount` requires a ready editor.
- A mode change restores the text unless suppression is on, even over edits that were never submitted (JSONEditor/index.tsx:22-27, 54-56); `SelectMode` does the same.
- The hint is built in the state's key order (monaco/index.tsx:20-28, 105-112) and handled in that order (monaco/index.tsx:124-137). `value` comes before `filepath`, so `setValue` lands on the model about to be disposed, and the rebind copies the freshly set text into the new model.

- `JSONEditor` reads the inner editor from its ref during render (JSONEditor/index.tsx:31). The inner editor loading does not re-render `JSONEditor`, so until something else does (typically the first edit reaching `setText`), the Alt+Enter listener is not registered (JSONEditor/index.tsx:58-71) and the submit button's `monacoEditor!.getValue()` (JSONEditor/index.tsx:76) dereferences `undefined`. This follows from reading the code; the model does not cover the ref.

## Left out

- monaco/getMonaco.ts (loading the runtime from a CDN, the process-wide promise) is not part of this model. `EditorReady` stands for the promise resolving. A runtime that never loads is a component on which `EditorReady` is never called.
- The debounce timing (500 ms, trailing edge) is not modelled. `HandleContentChange` is the emission whenever it runs, and blur and unmount flush by running it. lodash's `flush` with nothing pending would not call the function; the model runs the emission anyway.
- `onChange` and `onReady` callbacks are not objects here. `onChange` calls are the `notified` results, and `onReady` is not modelled.
- The window resize listener, `editor.layout()`, and listener registration and removal are not modelled.
- `monaco.Uri.parse` is not modelled: a model's uri is the path string.
- Widths and heights that are numbers are integers. JavaScript floating point, including `NaN`, is not modelled.
- What the runtime does when `setModelLanguage` is given a disposed model is unknown. The model records the language change on that store entry.
- React's scheduling is collapsed: each state change, with the re-render and the effects it triggers, is one method (`Update`, `EditorReady`, `DataChanged`, `SelectMode`). Batching of several state changes and `React.memo` are not modelled. `handleContentChange` writes `this.state.value` directly without a re-render, as in the code.
- JSON.stringify, JSON.parse, yaml.dump and yaml.load are uninterpreted functions. No round trip is claimed.
- JsonEditor.JsonEditor.Restore: when a serialiser gives no text, the model keeps the text and reports the failure. In the code, a throw from `JSON.stringify` or `yaml.dump` leaves `restore` uncaught (the exception reaching React's error handling is not modelled), and `JSON.stringify(undefined)` makes `undefined` the text state, which the string-typed text cannot hold.
- JsonEditor.JsonEditor.Apply: an exception thrown by `props.onChange` inside the same `try` is not modelled. The model assumes `onChange` returns.
- JsonEditor.JsonEditor.DataChanged: React reruns the restore effect when `props.data` changes by reference. The model compares values.
- The Alt/Meta+Enter key decoding and its 100 ms delay, and the submit button, are not modelled. Once the inner editor is reachable, both call `apply` with the buffer text, which is `Apply`'s parameter. The 200 ms reset delay is the `TimerFires` event.
- Randomness: the instance uuid (`Math.random`, `Date.now`) is a constructor parameter.
- `alert` and `console.error` are not modelled.
- quickForm's row rendering, its `+ev.target.value` number coercion (floating point), `domProps` and `step` are not modelled.
- quickDialog/index.tsx, utils/loadScript.ts and utils/elt.ts are not part of this model: they are DOM plumbing.
- `genCounter` is a module-level variable in the code. Here it is the `IdGenerator` object, whose `issued` history is ghost.
- QuickForm.IdGenerator.GenID: the counter is an unbounded integer. `genCounter` is a JavaScript number, so past 2^53 `++genCounter` no longer changes it and ids repeat; distinctness is proved only for the unbounded counter.

## Findings

| source | as written | input that shows it | evidently intended | confidence | as-written member | corrected member |
|---|---|---|---|---|---|---|
| JSONEditor/index.tsx:73 | `` `jsonEditor ${props.className}` \|\| '' `` applies the default to the whole template string, which is never empty | `className` absent: the class is `jsonEditor undefined` | `` `jsonEditor ${props.className \|\| ''}` ``, giving `jsonEditor ` | high; not executed | `JsonEditor.WrapperClassAsWrittenShowsUndefined` | `JsonEditor.WrapperClass` |
