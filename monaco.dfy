/** The text-buffer binding: the `MonacoEditor` component keeps a snapshot of
    its configuration, diffs the previous snapshot against the next one, and
    applies the differences to one live text model of an external editor.

    The editor runtime is modelled as a store of text models (indices into
    `models` are model handles) and the model the editor shows. */
module Monaco {
  import opened Common

  /** A width or height: the component accepts a string or a number. */
  datatype Dim = DimText(text: string) | DimNum(num: int)

  /** The component state, in the key order of its initial value. */
  datatype Snapshot = Snapshot(
    loading: string,
    value: string,
    filepath: string,
    language: string,
    className: string,
    width: Dim,
    height: Dim)

  const LoadingMessage: string := "载入编辑器中..."
  const DefaultLanguage: string := "javascript"

  /** The state a fresh component starts from: still loading, no text. */
  function InitialState(): (s: Snapshot)
    ensures s.loading != "" && s.value == "" && s.filepath == ""
    ensures s.language == DefaultLanguage && s.className == ""
    ensures s.width == DimText("") && s.height == DimText("")
  {
    Snapshot(LoadingMessage, "", "", DefaultLanguage, "", DimText(""), DimText(""))
  }

  /** The component's inputs; an absent optional input is `None`. */
  datatype Props = Props(
    value: string,
    filepath: string,
    language: Option<string>,
    className: Option<string>,
    width: Option<Dim>,
    height: Option<Dim>)

  /** JavaScript truthiness of an optional string, as `x || d` tests it. */
  predicate TextGiven(o: Option<string>) {
    o.Some? && o.value != ""
  }

  /** JavaScript truthiness of an optional size: `''` and `0` are falsy. */
  predicate DimGiven(o: Option<Dim>) {
    match o
    case None => false
    case Some(DimText(t)) => t != ""
    case Some(DimNum(x)) => x != 0
  }

  /** getDerivedStateFromProps merged into the previous state. */
  function Derive(props: Props, prev: Snapshot): Snapshot {
    prev.(
      value := props.value,
      filepath := props.filepath,
      language := if TextGiven(props.language) then props.language.value else DefaultLanguage,
      className := if TextGiven(props.className) then props.className.value else "",
      width := if DimGiven(props.width) then props.width.value else DimText(""),
      height := if DimGiven(props.height) then props.height.value else DimText(""))
  }

  /** The derived state copies value and path, defaults the optional inputs,
      keeps `loading`, and depends on the previous state through `loading` only. */
  lemma DeriveDefaults(props: Props, prev: Snapshot)
    ensures var s := Derive(props, prev);
      && s.loading == prev.loading
      && s.value == props.value && s.filepath == props.filepath
      && s.language != ""
      && (TextGiven(props.language) ==> s.language == props.language.value)
      && (!TextGiven(props.language) ==> s.language == DefaultLanguage)
      && (TextGiven(props.className) ==> s.className == props.className.value)
      && (!TextGiven(props.className) ==> s.className == "")
      && (DimGiven(props.width) ==> s.width == props.width.value)
      && (!DimGiven(props.width) ==> s.width == DimText(""))
      && (DimGiven(props.height) ==> s.height == props.height.value)
      && (!DimGiven(props.height) ==> s.height == DimText(""))
      && (forall other :: Derive(props, other) == s.(loading := other.loading))
  {
  }

  // ---------------------------------------------------------------------
  // The diff computed by shouldComponentUpdate

  datatype Key = Loading | Value | Filepath | Language | ClassName | Width | Height

  /** The order in which `for (const key in state)` visits the keys. */
  const KeyOrder: seq<Key> := [Loading, Value, Filepath, Language, ClassName, Width, Height]

  function Rank(k: Key): (r: nat)
    ensures r < |KeyOrder| && KeyOrder[r] == k
  {
    match k
    case Loading => 0
    case Value => 1
    case Filepath => 2
    case Language => 3
    case ClassName => 4
    case Width => 5
    case Height => 6
  }

  /** A snapshot field's value, whatever its type. */
  datatype FieldValue = TextField(text: string) | DimField(dim: Dim)

  function Get(s: Snapshot, k: Key): FieldValue {
    match k
    case Loading => TextField(s.loading)
    case Value => TextField(s.value)
    case Filepath => TextField(s.filepath)
    case Language => TextField(s.language)
    case ClassName => TextField(s.className)
    case Width => DimField(s.width)
    case Height => DimField(s.height)
  }

  /** One `hint[key] = [oldV, newV]` entry; the hint lists them in insertion order. */
  datatype HintEntry = HintEntry(key: Key, before: FieldValue, after: FieldValue)
  type Hint = seq<HintEntry>

  /** The hint built by the loop over `keys`, visited in order. */
  function DiffOver(keys: seq<Key>, p: Snapshot, n: Snapshot): Hint
    decreases |keys|
  {
    if keys == [] then []
    else
      var k := keys[|keys| - 1];
      var rest := DiffOver(keys[..|keys| - 1], p, n);
      if Get(p, k) != Get(n, k) then rest + [HintEntry(k, Get(p, k), Get(n, k))] else rest
  }

  function Diff(p: Snapshot, n: Snapshot): Hint {
    DiffOver(KeyOrder, p, n)
  }

  predicate HasKey(h: Hint, k: Key) {
    exists i :: 0 <= i < |h| && h[i].key == k
  }

  /** Entries appear in the snapshot's key order, so no key appears twice. */
  predicate Ordered(h: Hint) {
    forall i, j :: 0 <= i < j < |h| ==> Rank(h[i].key) < Rank(h[j].key)
  }

  lemma {:induction false} DiffOverSpec(keys: seq<Key>, p: Snapshot, n: Snapshot)
    ensures var d := DiffOver(keys, p, n);
      && (forall i :: 0 <= i < |d| ==>
            d[i].key in keys && d[i].before == Get(p, d[i].key) &&
            d[i].after == Get(n, d[i].key) && d[i].before != d[i].after)
      && (forall k :: k in keys && Get(p, k) != Get(n, k) ==> HasKey(d, k))
    decreases |keys|
  {
    if keys != [] {
      var init, k := keys[..|keys| - 1], keys[|keys| - 1];
      assert keys == init + [k];
      DiffOverSpec(init, p, n);
      var rest := DiffOver(init, p, n);
      var d := DiffOver(keys, p, n);
      forall k' | k' in keys && Get(p, k') != Get(n, k')
        ensures HasKey(d, k')
      {
        if k' == k {
          assert d[|d| - 1].key == k';
        } else {
          assert k' in init;
          var i :| 0 <= i < |rest| && rest[i].key == k';
          assert d[i] == rest[i];
        }
      }
    }
  }

  lemma {:induction false} DiffPrefixOrdered(m: nat, p: Snapshot, n: Snapshot)
    requires m <= |KeyOrder|
    ensures Ordered(DiffOver(KeyOrder[..m], p, n))
    ensures forall i :: 0 <= i < |DiffOver(KeyOrder[..m], p, n)| ==>
              Rank(DiffOver(KeyOrder[..m], p, n)[i].key) < m
  {
    if m > 0 {
      DiffPrefixOrdered(m - 1, p, n);
      var keys := KeyOrder[..m];
      assert keys[..|keys| - 1] == KeyOrder[..m - 1];
      assert keys[|keys| - 1] == KeyOrder[m - 1];
      assert Rank(KeyOrder[m - 1]) == m - 1 by {
        RankOfPosition(m - 1);
      }
    }
  }

  lemma RankOfPosition(j: nat)
    requires j < |KeyOrder|
    ensures Rank(KeyOrder[j]) == j
  {
  }

  /** shouldComponentUpdate: the hint holds exactly the keys whose values differ
      by strict inequality, each with its old and new value, in key order; it is
      empty exactly when nothing changed. */
  lemma DiffSpec(p: Snapshot, n: Snapshot)
    ensures forall k :: HasKey(Diff(p, n), k) <==> Get(p, k) != Get(n, k)
    ensures forall i :: 0 <= i < |Diff(p, n)| ==>
              Diff(p, n)[i].before == Get(p, Diff(p, n)[i].key) &&
              Diff(p, n)[i].after == Get(n, Diff(p, n)[i].key)
    ensures Ordered(Diff(p, n))
    ensures Diff(p, n) == [] <==> p == n
  {
    DiffOverSpec(KeyOrder, p, n);
    DiffPrefixOrdered(|KeyOrder|, p, n);
    assert KeyOrder[..|KeyOrder|] == KeyOrder;
    var d := Diff(p, n);
    forall k ensures HasKey(d, k) <==> Get(p, k) != Get(n, k) {
      assert k in KeyOrder by { assert KeyOrder[Rank(k)] == k; }
    }
    if d == [] {
      assert Get(p, Loading) == Get(n, Loading) && Get(p, Value) == Get(n, Value);
      assert Get(p, Filepath) == Get(n, Filepath) && Get(p, Language) == Get(n, Language);
      assert Get(p, ClassName) == Get(n, ClassName);
      assert Get(p, Width) == Get(n, Width) && Get(p, Height) == Get(n, Height);
    } else {
      assert d[0].before != d[0].after;
    }
  }

  // ---------------------------------------------------------------------
  // The reconcile block of render

  /** A text model of the editor runtime; `disposals` counts dispose() calls. */
  datatype TextModel = TextModel(text: string, language: string, uri: string, disposals: nat)

  /** The model store, the model the component holds (`this.model`) and the
      model the editor is bound to. */
  datatype Binding = Binding(models: seq<TextModel>, current: nat, bound: nat)

  /** Exactly one live model: the held one, shown by the editor; every other
      model has been disposed exactly once. */
  predicate OneLive(b: Binding) {
    && b.current < |b.models|
    && b.bound == b.current
    && b.models[b.current].disposals == 0
    && forall i :: 0 <= i < |b.models| && i != b.current ==> b.models[i].disposals == 1
  }

  function Dispose(m: TextModel): TextModel {
    m.(disposals := m.disposals + 1)
  }

  /** One hint key handled against the model `cap` captured before the loop. */
  function ApplyEntry(b: Binding, cap: nat, k: Key, s: Snapshot): (r: Binding)
    requires cap < |b.models|
    ensures |b.models| <= |r.models|
  {
    match k
    case Filepath =>
      var created := TextModel(b.models[cap].text, s.language, s.filepath, 0);
      var id := |b.models|;
      Binding(b.models[cap := Dispose(b.models[cap])] + [created], id, id)
    case Value => b.(models := b.models[cap := b.models[cap].(text := s.value)])
    case Language => b.(models := b.models[cap := b.models[cap].(language := s.language)])
    case _ => b
  }

  /** The hint's entries handled in order, all against the captured model `cap`. */
  function ApplyHint(b: Binding, cap: nat, h: Hint, s: Snapshot): (r: Binding)
    requires cap < |b.models|
    ensures |b.models| <= |r.models|
    decreases |h|
  {
    if h == [] then b
    else ApplyEntry(ApplyHint(b, cap, h[..|h| - 1], s), cap, h[|h| - 1].key, s)
  }

  /** What one pass from snapshot `p` to snapshot `n` does, stated by the
      fields that changed rather than by the hint: a new value is written into
      the held model; a new path creates a model from the held model's text with
      the new language and path, binds the editor to it and disposes the held
      one; a new language is set on the held model, which after a rebind is the
      disposed one. Nothing else is touched. */
  function Expected(b: Binding, p: Snapshot, n: Snapshot): Binding
    requires b.current < |b.models|
  {
    var was := b.models[b.current];
    var edited := if p.value != n.value then was.(text := n.value) else was;
    if p.filepath != n.filepath then
      var retired := Dispose(edited);
      var retired' := if p.language != n.language then retired.(language := n.language) else retired;
      var id := |b.models|;
      Binding(b.models[b.current := retired'] + [TextModel(edited.text, n.language, n.filepath, 0)], id, id)
    else
      var relabelled := if p.language != n.language then edited.(language := n.language) else edited;
      b.(models := b.models[b.current := relabelled])
  }

  lemma ApplyDiffStep(b: Binding, cap: nat, keys: seq<Key>, k: Key, p: Snapshot, n: Snapshot)
    requires cap < |b.models|
    ensures var before := ApplyHint(b, cap, DiffOver(keys, p, n), n);
      ApplyHint(b, cap, DiffOver(keys + [k], p, n), n) ==
        if Get(p, k) != Get(n, k) then ApplyEntry(before, cap, k, n) else before
  {
  }

  /** The binding after the value step of a pass, then after the path step,
      then after the language step: each step handles its key against the
      held model exactly when that key's values differ. */
  function ValueStep(b: Binding, p: Snapshot, n: Snapshot): (r: Binding)
    requires b.current < |b.models|
    ensures |b.models| <= |r.models|
  {
    if p.value != n.value then ApplyEntry(b, b.current, Value, n) else b
  }

  function PathStep(b: Binding, p: Snapshot, n: Snapshot): (r: Binding)
    requires b.current < |b.models|
    ensures |b.models| <= |r.models|
  {
    var v := ValueStep(b, p, n);
    if p.filepath != n.filepath then ApplyEntry(v, b.current, Filepath, n) else v
  }

  function LanguageStep(b: Binding, p: Snapshot, n: Snapshot): (r: Binding)
    requires b.current < |b.models|
    ensures |b.models| <= |r.models|
  {
    var f := PathStep(b, p, n);
    if p.language != n.language then ApplyEntry(f, b.current, Language, n) else f
  }

  /** The binding after the keys before position `i` of the key order. */
  function Stage(b: Binding, p: Snapshot, n: Snapshot, i: nat): Binding
    requires b.current < |b.models|
  {
    if i <= 1 then b
    else if i == 2 then ValueStep(b, p, n)
    else if i == 3 then PathStep(b, p, n)
    else LanguageStep(b, p, n)
  }

  /** The render loop over the hint built from the first `i` keys ends in
      `Stage(b, p, n, i)`. */
  lemma {:induction false} ReconcilePrefix(b: Binding, p: Snapshot, n: Snapshot, i: nat)
    requires b.current < |b.models| && i <= |KeyOrder|
    ensures ApplyHint(b, b.current, DiffOver(KeyOrder[..i], p, n), n) == Stage(b, p, n, i)
  {
    if i > 0 {
      ReconcilePrefix(b, p, n, i - 1);
      assert KeyOrder[..i] == KeyOrder[..i - 1] + [KeyOrder[i - 1]];
      ApplyDiffStep(b, b.current, KeyOrder[..i - 1], KeyOrder[i - 1], p, n);
      StageStep(b, p, n, i);
    }
  }

  /** Each stage is the previous one with the `i`-th key handled exactly when
      its values differ. */
  lemma StageStep(b: Binding, p: Snapshot, n: Snapshot, i: nat)
    requires b.current < |b.models| && 0 < i <= |KeyOrder|
    ensures var k, before := KeyOrder[i - 1], Stage(b, p, n, i - 1);
      Stage(b, p, n, i) == if Get(p, k) != Get(n, k) then ApplyEntry(before, b.current, k, n) else before
  {
    if i == 1 {
      assert KeyOrder[0] == Loading;
    } else if i == 2 {
      assert KeyOrder[1] == Value;
    } else if i == 3 {
      assert KeyOrder[2] == Filepath;
    } else if i == 4 {
      assert KeyOrder[3] == Language;
    } else {
      assert KeyOrder[i - 1] in {ClassName, Width, Height};
    }
  }

  /** Handling the diff's hint key by key does what `Expected` describes. */
  lemma ReconcileIsExpected(b: Binding, p: Snapshot, n: Snapshot)
    requires b.current < |b.models|
    ensures ApplyHint(b, b.current, Diff(p, n), n) == Expected(b, p, n)
  {
    ReconcilePrefix(b, p, n, |KeyOrder|);
    assert KeyOrder[..|KeyOrder|] == KeyOrder;
    ExpectedSteps(b, p, n);
  }

  /** `Expected` is the value, path and language steps in this order. */
  lemma ExpectedSteps(b: Binding, p: Snapshot, n: Snapshot)
    requires b.current < |b.models|
    ensures Expected(b, p, n) == LanguageStep(b, p, n)
  {
  }

  /** Idempotence: a pass over an unchanged snapshot changes no model and no binding. */
  lemma ReconcileUnchanged(b: Binding, s: Snapshot)
    requires b.current < |b.models|
    ensures ApplyHint(b, b.current, Diff(s, s), s) == b
  {
    ReconcileIsExpected(b, s, s);
    assert b.models[b.current := b.models[b.current]] == b.models;
  }

  /** Size, class and loading changes are presentational: no model is touched. */
  lemma ReconcilePresentational(b: Binding, p: Snapshot, n: Snapshot)
    requires b.current < |b.models|
    requires p.value == n.value && p.filepath == n.filepath && p.language == n.language
    ensures ApplyHint(b, b.current, Diff(p, n), n) == b
  {
    ReconcileIsExpected(b, p, n);
    assert b.models[b.current := b.models[b.current]] == b.models;
  }

  /** A new path: the editor and the component both move to one new model that
      carries the held model's text (after this pass's value update), the new
      language and the new path; the held model is disposed exactly once; every
      other model is untouched. */
  lemma ReconcileRebind(b: Binding, p: Snapshot, n: Snapshot)
    requires OneLive(b)
    requires p.filepath != n.filepath
    ensures var r := ApplyHint(b, b.current, Diff(p, n), n);
      && |r.models| == |b.models| + 1
      && r.current == |b.models| && r.bound == r.current
      && r.models[r.current] ==
           TextModel(if p.value != n.value then n.value else b.models[b.current].text,
                     n.language, n.filepath, 0)
      && r.models[b.current].disposals == 1
      && (forall i :: 0 <= i < |b.models| && i != b.current ==> r.models[i] == b.models[i])
  {
    ReconcileIsExpected(b, p, n);
  }

  /** Same path: the held model stays bound; a new value replaces its text, a
      new language replaces its language and leaves its text alone. */
  lemma ReconcileInPlace(b: Binding, p: Snapshot, n: Snapshot)
    requires b.current < |b.models|
    requires p.filepath == n.filepath
    ensures var r := ApplyHint(b, b.current, Diff(p, n), n);
      var was := b.models[b.current];
      && r.current == b.current && r.bound == b.bound && |r.models| == |b.models|
      && r.models[b.current] ==
           was.(text := if p.value != n.value then n.value else was.text,
                language := if p.language != n.language then n.language else was.language)
      && (forall i :: 0 <= i < |b.models| && i != b.current ==> r.models[i] == b.models[i])
  {
    ReconcileIsExpected(b, p, n);
  }

  /** The model captured before the loop is not refreshed after a rebind: when
      path and language change together, the language is set on the old,
      already disposed model, while the new model got the new language when it
      was created. */
  lemma ReconcileStaleLanguage(b: Binding, p: Snapshot, n: Snapshot)
    requires OneLive(b)
    requires p.filepath != n.filepath && p.language != n.language
    ensures var r := ApplyHint(b, b.current, Diff(p, n), n);
      && r.current == |b.models| < |r.models|
      && r.models[b.current].language == n.language
      && r.models[b.current].disposals > 0
      && r.models[r.current].language == n.language
  {
    ReconcileIsExpected(b, p, n);
  }

  /** A pass keeps exactly one live model. */
  lemma ReconcileKeepsOneLive(b: Binding, p: Snapshot, n: Snapshot)
    requires OneLive(b)
    ensures OneLive(ApplyHint(b, b.current, Diff(p, n), n))
  {
    ReconcileIsExpected(b, p, n);
  }

  // ---------------------------------------------------------------------
  // handleContentChange

  /** Outcome of one emission: the value passed to onChange, if any, and the
      value recorded in the state afterwards. */
  datatype Emission = Emission(notified: Option<string>, recorded: string)

  /** onChange is called exactly when the buffer differs from the recorded
      value, with the buffer text, and the buffer text is recorded. */
  function Emit(recorded: string, buffer: string): (e: Emission)
    ensures e.notified.Some? <==> buffer != recorded
    ensures e.notified.Some? ==> e.notified.value == buffer
    ensures e.recorded == buffer
  {
    Emission(if buffer != recorded then Some(buffer) else None, buffer)
  }

  /** A second emission with no edit in between notifies nothing. */
  lemma EmitTwiceSilent(recorded: string, buffer: string)
    ensures Emit(Emit(recorded, buffer).recorded, buffer).notified == None
  {
  }

  /** What render returns besides its effects: the class and the style. */
  datatype View = View(className: string, width: Dim, height: Dim)

  const ClassPrefix: string := "x-monaco-editor "

  // ---------------------------------------------------------------------
  // The component

  class MonacoEditor {
    var state: Snapshot
    var hint: Hint
    /** The runtime has loaded and the mount callback has created model and editor. */
    var ready: bool
    var models: seq<TextModel>
    var model: nat
    var editorModel: nat
    var editorDisposed: bool
    var unmounted: bool

    function Bound(): Binding
      reads this
    {
      Binding(models, model, editorModel)
    }

    ghost predicate Valid()
      reads this
    {
      && !unmounted
      && !editorDisposed
      && (state.loading == "" ==> ready)
      && (!ready ==> models == [])
      && (ready ==> OneLive(Bound()))
    }

    /** Construction and the first getDerivedStateFromProps; the first render
        touches nothing because the editor is still loading. */
    constructor (props: Props)
      ensures Valid() && !ready && hint == []
      ensures state == Derive(props, InitialState())
    {
      state := Derive(props, InitialState());
      hint := [];
      ready := false;
      models := [];
      model := 0;
      editorModel := 0;
      editorDisposed := false;
      unmounted := false;
    }

    /** The key-by-key comparison of the current state with the next one. */
    method ShouldComponentUpdate(next: Snapshot) returns (changed: bool)
      modifies this`hint
      ensures hint == Diff(state, next)
      ensures changed <==> state != next
    {
      var acc: Hint := [];
      changed := false;
      for i := 0 to |KeyOrder|
        invariant acc == DiffOver(KeyOrder[..i], state, next)
        invariant changed <==> acc != []
      {
        var key := KeyOrder[i];
        var oldV, newV := Get(state, key), Get(next, key);
        assert KeyOrder[..i + 1] == KeyOrder[..i] + [key];
        if oldV != newV {
          acc := acc + [HintEntry(key, oldV, newV)];
          changed := true;
        }
      }
      assert KeyOrder[..|KeyOrder|] == KeyOrder;
      hint := acc;
      DiffSpec(state, next);
    }

    /** render: once the editor is ready, each hint key is applied to the model
        captured at the start; the class and style are returned. */
    method Render() returns (view: View)
      requires Valid()
      modifies this`models, this`model, this`editorModel
      ensures state.loading != "" ==> Bound() == old(Bound())
      ensures state.loading == "" ==> Bound() == ApplyHint(old(Bound()), old(model), hint, state)
      ensures view == View(ClassPrefix + state.className, state.width, state.height)
    {
      if state.loading == "" {
        var m := model;
        var i := 0;
        while i < |hint|
          invariant 0 <= i <= |hint|
          invariant m < |old(models)| <= |models|
          invariant Bound() == ApplyHint(old(Bound()), m, hint[..i], state)
        {
          assert hint[..i + 1][..i] == hint[..i];
          var key := hint[i].key;
          if key == Filepath {
            var created := |models|;
            models := models + [TextModel(models[m].text, state.language, state.filepath, 0)];
            editorModel := created;
            model := created;
            models := models[m := Dispose(models[m])];
          } else {
            if key == Value {
              models := models[m := models[m].(text := state.value)];
            }
            if key == Language {
              models := models[m := models[m].(language := state.language)];
            }
          }
          i := i + 1;
        }
        assert hint[..|hint|] == hint;
      }
      view := View(ClassPrefix + state.className, state.width, state.height);
    }

    /** One React update: shouldComponentUpdate, the state replaced by the next
        one, and render when something changed. */
    method Update(next: Snapshot) returns (view: Option<View>)
      requires Valid()
      requires next.loading == "" ==> ready
      modifies this`hint, this`state, this`models, this`model, this`editorModel
      ensures Valid()
      ensures state == next && hint == Diff(old(state), next)
      ensures view.Some? <==> old(state) != next
      ensures view.Some? ==> view.value == View(ClassPrefix + next.className, next.width, next.height)
      ensures next.loading != "" ==> Bound() == old(Bound())
      ensures next.loading == "" ==> Bound() == Expected(old(Bound()), old(state), next)
    {
      var changed := ShouldComponentUpdate(next);
      ghost var prev := state;
      state := next;
      if changed {
        var v := Render();
        view := Some(v);
        if next.loading == "" {
          ReconcileIsExpected(old(Bound()), prev, next);
          ReconcileKeepsOneLive(old(Bound()), prev, next);
        }
      } else {
        view := None;
        if next.loading == "" {
          ReconcileIsExpected(Bound(), prev, next);
          ReconcileUnchanged(Bound(), next);
        }
      }
    }

    /** New props arrive: derive the next state and update. */
    method ReceiveProps(props: Props) returns (view: Option<View>)
      requires Valid()
      modifies this`hint, this`state, this`models, this`model, this`editorModel
      ensures Valid()
      ensures state == Derive(props, old(state)) && hint == Diff(old(state), state)
      ensures view.Some? <==> old(state) != state
      ensures view.Some? ==> view.value == View(ClassPrefix + state.className, state.width, state.height)
      ensures state.loading != "" ==> Bound() == old(Bound())
      ensures state.loading == "" ==> Bound() == Expected(old(Bound()), old(state), state)
    {
      view := Update(Derive(props, state));
    }

    /** The mount callback once the runtime has loaded: one model from the
        current state, one editor bound to it, then `loading` cleared. */
    method EditorReady(props: Props) returns (view: Option<View>)
      requires Valid() && !ready
      modifies this
      ensures Valid() && ready
      ensures state == Derive(props, old(state).(loading := "")) && hint == Diff(old(state), state)
      ensures view == Some(View(ClassPrefix + state.className, state.width, state.height))
      ensures Bound() ==
        Expected(Binding([TextModel(old(state).value, old(state).language, old(state).filepath, 0)], 0, 0),
                 old(state), state)
    {
      models := [TextModel(state.value, state.language, state.filepath, 0)];
      model := 0;
      editorModel := 0;
      ready := true;
      view := Update(Derive(props, state.(loading := "")));
    }

    /** The user edits the text in the editor. */
    method UserEdit(text: string)
      requires Valid() && ready
      modifies this`models
      ensures Valid()
      ensures models == old(models)[model := old(models)[model].(text := text)]
    {
      models := models[model := models[model].(text := text)];
    }

    /** handleContentChange when it runs (debounce expiry or flush). */
    method HandleContentChange() returns (notified: Option<string>)
      requires Valid() && ready
      modifies this`state
      ensures Valid()
      ensures notified == Emit(old(state.value), models[model].text).notified
      ensures state == old(state).(value := Emit(old(state.value), models[model].text).recorded)
    {
      var value := models[model].text;
      if state.value != value {
        state := state.(value := value);
        notified := Some(value);
      } else {
        notified := None;
      }
    }

    /** componentWillUnmount: flush, then dispose the editor and the model.
        It dereferences the editor, so it needs the editor to be ready. */
    method Unmount() returns (notified: Option<string>)
      requires Valid() && ready
      modifies this`state, this`models, this`editorDisposed, this`unmounted
      ensures unmounted && editorDisposed
      ensures notified == Emit(old(state.value), old(models[model].text)).notified
      ensures state == old(state).(value := Emit(old(state.value), old(models[model].text)).recorded)
      ensures |models| == |old(models)|
      ensures forall i :: 0 <= i < |models| ==> models[i] == old(models[i]).(disposals := 1)
    {
      notified := HandleContentChange();
      editorDisposed := true;
      models := models[model := Dispose(models[model])];
      unmounted := true;
    }
  }
}
