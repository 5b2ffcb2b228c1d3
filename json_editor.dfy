/** The structured-value bridge: `JSONEditor` shows a value as JSON or YAML
    text in a `MonacoEditor`, parses edited text back on submit, and suppresses
    the automatic redisplay for a while after a successful submit.

    The serialisation libraries are uninterpreted functions supplied at
    construction; timers are explicit events. */
module JsonEditor {
  import opened Common
  import Monaco

  datatype Mode = Json | Yaml

  /** `props.mode || 'json'`. */
  function ModeOf(o: Option<Mode>): (m: Mode)
    ensures o.Some? ==> m == o.value
    ensures o.None? ==> m == Json
  {
    if o.Some? then o.value else Json
  }

  function ModeName(m: Mode): string {
    match m
    case Json => "json"
    case Yaml => "yaml"
  }

  datatype Parsed = Parsed(value: Value) | ParseError(message: string)

  /** `JSON.stringify(_, null, 2)`, `JSON.parse`, `yaml.dump` and `yaml.load`.
      A serialiser gives `None` when it produces no text: it throws on a value
      it cannot encode, and `JSON.stringify` returns `undefined` for `undefined`. */
  datatype Serialisers = Serialisers(
    stringify: Value -> Option<string>,
    parseJson: string -> Parsed,
    dump: Value -> Option<string>,
    load: string -> Parsed)

  /** The serialiser restore uses in each mode. */
  function Serialise(codec: Serialisers, mode: Mode, data: Value): Option<string> {
    match mode
    case Json => codec.stringify(data)
    case Yaml => codec.dump(data)
  }

  /** The text after restore: the serialisation, or the current text when the
      serialiser produced none. */
  function Restored(codec: Serialisers, mode: Mode, data: Value, current: string): (r: string)
    ensures Serialise(codec, mode, data).Some? ==> r == Serialise(codec, mode, data).value
    ensures Serialise(codec, mode, data).None? ==> r == current
  {
    match Serialise(codec, mode, data)
    case Some(t) => t
    case None => current
  }

  /** The parser apply uses in each mode. */
  function Deserialise(codec: Serialisers, mode: Mode, text: string): Parsed {
    match mode
    case Json => codec.parseJson(text)
    case Yaml => codec.load(text)
  }

  const PathPrefix: string := "inmemory://model/"

  /** The identity of the editor's document: one path per instance and mode. */
  function FilePath(uuid: string, mode: Mode): string {
    PathPrefix + uuid + "." + ModeName(mode)
  }

  /** Both the editor's path and its language are functions of the mode, and
      each tells the modes apart. */
  lemma ModeDeterminesEditor(uuid: string, m1: Mode, m2: Mode)
    ensures FilePath(uuid, m1) == FilePath(uuid, m2) <==> m1 == m2
    ensures ModeName(m1) == ModeName(m2) <==> m1 == m2
  {
    if m1 != m2 {
      var a, b := FilePath(uuid, m1), FilePath(uuid, m2);
      assert a[|a| - 1] != b[|b| - 1];
    }
  }

  /** The props this component passes to its MonacoEditor. */
  function EditorProps(uuid: string, mode: Mode, text: string): Monaco.Props {
    Monaco.Props(text, FilePath(uuid, mode), Some(ModeName(mode)), None, None, Some(Monaco.DimText("100%")))
  }

  /** A mode switch changes the editor's path and language in the same update,
      so the editor rebinds to a new model in the new mode's language. */
  lemma ModeSwitchRebinds(uuid: string, m1: Mode, m2: Mode, t1: string, t2: string, prev: Monaco.Snapshot)
    requires m1 != m2
    ensures var p := Monaco.Derive(EditorProps(uuid, m1, t1), prev);
      var n := Monaco.Derive(EditorProps(uuid, m2, t2), p);
      && Monaco.HasKey(Monaco.Diff(p, n), Monaco.Filepath)
      && Monaco.HasKey(Monaco.Diff(p, n), Monaco.Language)
      && n.filepath == FilePath(uuid, m2)
      && n.language == ModeName(m2)
  {
    ModeDeterminesEditor(uuid, m1, m2);
    var p := Monaco.Derive(EditorProps(uuid, m1, t1), prev);
    var n := Monaco.Derive(EditorProps(uuid, m2, t2), p);
    Monaco.DiffSpec(p, n);
    assert Monaco.Get(p, Monaco.Filepath) != Monaco.Get(n, Monaco.Filepath);
    assert Monaco.Get(p, Monaco.Language) != Monaco.Get(n, Monaco.Language);
  }

  /** The wrapper's class as written: `|| ''` applies to the template string,
      which is never empty, so an absent class name renders as "undefined". */
  function WrapperClassAsWritten(className: Option<string>): string {
    var shown := match className case None => "undefined" case Some(c) => c;
    var s := "jsonEditor " + shown;
    if s != "" then s else ""
  }

  lemma WrapperClassAsWrittenShowsUndefined()
    ensures WrapperClassAsWritten(None) == "jsonEditor undefined"
  {
  }

  /** The wrapper's class as intended: the default applies to the class name. */
  function WrapperClass(className: Option<string>): (r: string)
    ensures className.None? ==> r == "jsonEditor "
    ensures className.Some? ==> r == "jsonEditor " + className.value
  {
    "jsonEditor " + (if className.Some? && className.value != "" then className.value else "")
  }

  type TimerId = nat

  class JsonEditor {
    const codec: Serialisers
    const uuid: string
    /** props.data */
    var data: Value
    var mode: Mode
    /** The text shown in the editor (the `text` state). */
    var text: string
    /** The `supressEffect` state. */
    var suppress: bool
    /** `tempTimer.current` */
    var timer: Option<TimerId>
    /** Timers set with setTimeout and neither cleared nor fired yet. */
    var scheduled: set<TimerId>
    var nextTimer: TimerId

    /** Suppression is on exactly while one reset timer is outstanding, and the
        ref holds that timer. */
    ghost predicate Valid()
      reads this
    {
      && (suppress <==> timer.Some?)
      && scheduled == (if timer.Some? then {timer.value} else {})
      && (forall t :: t in scheduled ==> t < nextTimer)
    }

    /** Mounting: the mode from the props, the text state starts empty, and the
        first restore effect runs because nothing is suppressed yet. */
    constructor (codec: Serialisers, uuid: string, data: Value, propsMode: Option<Mode>)
      ensures Valid() && !suppress && scheduled == {}
      ensures this.codec == codec && this.uuid == uuid && this.data == data
      ensures mode == ModeOf(propsMode)
      ensures text == Restored(codec, mode, data, "")
    {
      this.codec := codec;
      this.uuid := uuid;
      this.data := data;
      mode := ModeOf(propsMode);
      suppress := false;
      timer := None;
      scheduled := {};
      nextTimer := 0;
      text := "";
      new;
      var _ := RestoreEffect();
    }

    /** restore (also the reset button): the text becomes the value serialised
        in the current mode; `failed` reports a serialiser that gave no text,
        in which case the text is left as it was. */
    method Restore() returns (failed: bool)
      modifies this`text
      ensures var out := if mode == Json then codec.stringify(data) else codec.dump(data);
        && (failed <==> out.None?)
        && text == (if out.Some? then out.value else old(text))
    {
      failed := false;
      if mode == Json {
        var out := codec.stringify(data);
        if out.Some? {
          text := out.value;
        } else {
          failed := true;
        }
      }
      if mode == Yaml {
        var out := codec.dump(data);
        if out.Some? {
          text := out.value;
        } else {
          failed := true;
        }
      }
    }

    /** The restore effect: skipped while suppression is on. */
    method RestoreEffect() returns (failed: bool)
      modifies this`text
      ensures failed <==> !suppress && Serialise(codec, mode, data).None?
      ensures text == if suppress then old(text) else Restored(codec, mode, data, old(text))
    {
      failed := false;
      if !suppress {
        failed := Restore();
      }
    }

    /** apply: parse in the current mode; on success raise suppression, replace
        any pending reset timer by one new timer and hand the value to onChange
        (the result); on failure leave everything as it was. */
    method Apply(input: string) returns (notified: Option<Value>)
      requires Valid()
      modifies this`suppress, this`timer, this`scheduled, this`nextTimer
      ensures Valid()
      ensures Deserialise(codec, mode, input).ParseError? ==> notified == None
      ensures Deserialise(codec, mode, input).Parsed? ==>
                notified == Some(Deserialise(codec, mode, input).value)
      ensures notified.None? ==>
                suppress == old(suppress) && timer == old(timer) &&
                scheduled == old(scheduled) && nextTimer == old(nextTimer)
      ensures notified.Some? ==>
                suppress && timer.Some? && timer.value !in old(scheduled) && scheduled == {timer.value}
    {
      var parsed := Deserialise(codec, mode, input);
      if parsed.ParseError? {
        notified := None;
        return;
      }
      suppress := true;
      if timer.Some? {
        scheduled := scheduled - {timer.value};
      }
      var t := nextTimer;
      nextTimer := nextTimer + 1;
      timer := Some(t);
      scheduled := scheduled + {t};
      notified := Some(parsed.value);
    }

    /** The reset timer fires: suppression ends and the ref is cleared. */
    method TimerFires(t: TimerId)
      requires Valid() && t in scheduled
      modifies this`suppress, this`timer, this`scheduled
      ensures Valid()
      ensures !suppress && timer == None && scheduled == {}
    {
      suppress := false;
      timer := None;
      scheduled := scheduled - {t};
    }

    /** New props.data: restore changes identity, so the effect runs. */
    method DataChanged(d: Value) returns (failed: bool)
      modifies this`data, this`text
      ensures data == d
      ensures failed <==> d != old(data) && !suppress && Serialise(codec, mode, d).None?
      ensures text == if d != old(data) && !suppress then Restored(codec, mode, d, old(text)) else old(text)
    {
      failed := false;
      if d != data {
        data := d;
        failed := RestoreEffect();
      }
    }

    /** A mode is chosen (radio button or the props.mode effect). */
    method SelectMode(m: Mode) returns (failed: bool)
      modifies this`mode, this`text
      ensures mode == m
      ensures failed <==> m != old(mode) && !suppress && Serialise(codec, m, data).None?
      ensures text == if m != old(mode) && !suppress then Restored(codec, m, data, old(text)) else old(text)
    {
      failed := false;
      if m != mode {
        mode := m;
        failed := RestoreEffect();
      }
    }

    /** The props.mode effect: `setMode(props.mode || 'json')`. */
    method PropsModeChanged(o: Option<Mode>) returns (failed: bool)
      modifies this`mode, this`text
      ensures mode == ModeOf(o)
      ensures failed <==> ModeOf(o) != old(mode) && !suppress && Serialise(codec, ModeOf(o), data).None?
      ensures text == if ModeOf(o) != old(mode) && !suppress then Restored(codec, ModeOf(o), data, old(text)) else old(text)
    {
      failed := SelectMode(ModeOf(o));
    }

    /** The editor reports a new text (its onChange is setText). */
    method EditorChanged(v: string)
      modifies this`text
      ensures text == v
    {
      text := v;
    }

    /** The props handed to the editor child. */
    function ChildProps(): (p: Monaco.Props)
      reads this
      ensures p.value == text && p.filepath == FilePath(uuid, mode)
      ensures p.language == Some(ModeName(mode))
    {
      EditorProps(uuid, mode, text)
    }
  }

  /** Feedback-loop suppression: a successful submit followed by the owner
      passing the committed value back in redisplays nothing. */
  method SubmitAndEcho(e: JsonEditor, input: string) returns (notified: Option<Value>)
    requires e.Valid()
    modifies e
    ensures e.Valid()
    ensures Deserialise(e.codec, e.mode, input).Parsed? ==> notified.Some? && e.suppress
    ensures e.text == old(e.text)
  {
    notified := e.Apply(input);
    if notified.Some? {
      var _ := e.DataChanged(notified.value);
    }
  }
}
