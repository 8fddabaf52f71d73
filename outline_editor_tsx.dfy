/**
 * The TypeScript outline editor. It holds the outline the outline room
 * sent (`null` until the first message), applies the copy-and-replace edits
 * of its fields, queues a change for the room whenever the outline stops
 * being deep-equal to the last one queued, and sends save and regenerate
 * requests. A debounced call is modelled as a pending slot holding its
 * latest argument plus an explicit flush event; whether the socket is open
 * at send time is a parameter.
 */
module OutlineEditorTsx {
  import opened Wrappers
  import opened Json
  import opened JsValues
  import opened OutlineEdits

  /** `updateModule(index, m)`: the edit happens only when the outline is truthy. */
  function WithModule(s: JsValue, index: int, m: Json): (r: JsValue)
    requires Truthy(s) ==> ArrayFieldAt(s, "modules", index)
    ensures !Truthy(s) ==> r == s
    ensures Truthy(s) ==> r.Defined? && r.json.Obj?
  {
    if Truthy(s) then Defined(ReplaceItem(s, "modules", index, m)) else s
  }

  /** The module title edit: `updateModule(index, {...module, name: text})`. */
  function WithModuleName(s: JsValue, index: int, text: string): (r: JsValue)
    requires ArrayFieldAt(s, "modules", index)
    ensures r.Defined? && r.json.Obj?
  {
    var item := Lookup(s.json.members, "modules").value.items[index];
    WithModule(s, index, NameEdit(item, text))
  }

  /** A subtopic edit of module `index`: `handleSubtopicChange` then `updateModule`. */
  function WithSubtopic(s: JsValue, index: int, sub: int, text: string): (r: JsValue)
    requires ArrayFieldAt(s, "modules", index)
    requires ArrayFieldAt(Defined(Lookup(s.json.members, "modules").value.items[index]), "subtopics", sub)
    ensures r.Defined? && r.json.Obj?
  {
    var item := Lookup(s.json.members, "modules").value.items[index];
    WithModule(s, index, SubtopicEdit(item, sub, text))
  }

  /** The title edit `prev ? {...prev, title: text} : prev`. */
  function WithTitle(s: JsValue, text: string): (r: JsValue)
    ensures !Truthy(s) ==> r == s
    ensures Truthy(s) ==> r.Defined? && r.json.Obj?
  {
    if Truthy(s) then Defined(SpreadWith(s, "title", Str(text))) else s
  }

  /** The summary edit `prev ? {...prev, summary: text} : prev`. */
  function WithSummary(s: JsValue, text: string): (r: JsValue)
    ensures !Truthy(s) ==> r == s
    ensures Truthy(s) ==> r.Defined? && r.json.Obj?
  {
    if Truthy(s) then Defined(SpreadWith(s, "summary", Str(text))) else s
  }

  /** The objective edit: `if (!prev) return prev`, otherwise replace objective `index`. */
  function WithObjective(s: JsValue, index: int, text: string): (r: JsValue)
    requires Truthy(s) ==> ArrayFieldAt(s, "objectives", index)
    ensures !Truthy(s) ==> r == s
    ensures Truthy(s) ==> r.Defined? && r.json.Obj?
  {
    if Truthy(s) then Defined(ReplaceItem(s, "objectives", index, Str(text))) else s
  }

  /**
   * On an outline every edit is the record update of the field it names,
   * and on `null` (no outline received yet) every guarded edit leaves the
   * value as it is.
   */
  lemma EditsOnOutline(o: Outline, text: string)
    ensures WithTitle(Defined(OutlineJson(o)), text) == Defined(OutlineJson(o.(title := text)))
    ensures WithSummary(Defined(OutlineJson(o)), text) == Defined(OutlineJson(o.(summary := text)))
    ensures WithTitle(Defined(Null), text) == Defined(Null) && WithSummary(Defined(Null), text) == Defined(Null)
  {
    TitleEditOnOutline(o, text);
    SummaryEditOnOutline(o, text);
  }

  /** Replacing module `i` of an outline is the record update of that module; `null` stays `null`. */
  lemma WithModuleOnOutline(o: Outline, i: int, m: Module, x: Json)
    requires 0 <= i < |o.modules|
    ensures ArrayFieldAt(Defined(OutlineJson(o)), "modules", i)
    ensures WithModule(Defined(OutlineJson(o)), i, ModuleJson(m)) == Defined(OutlineJson(o.(modules := o.modules[i := m])))
    ensures WithModule(Defined(Null), i, x) == Defined(Null)
  {
    ModuleEditOnOutline(o, i, m);
  }

  /** Replacing objective `i` of an outline is the record update of that objective; `null` stays `null`. */
  lemma WithObjectiveOnOutline(o: Outline, i: int, text: string)
    requires 0 <= i < |o.objectives|
    ensures ArrayFieldAt(Defined(OutlineJson(o)), "objectives", i)
    ensures WithObjective(Defined(OutlineJson(o)), i, text) == Defined(OutlineJson(o.(objectives := o.objectives[i := text])))
    ensures WithObjective(Defined(Null), i, text) == Defined(Null)
  {
    ObjectiveEditOnOutline(o, i, text);
  }

  /**
   * A subtopic edit on an outline changes that one subtopic of that one
   * module: the record update two levels down.
   */
  lemma WithSubtopicOnOutline(o: Outline, i: int, sub: int, text: string)
    requires 0 <= i < |o.modules| && 0 <= sub < |o.modules[i].subtopics|
    ensures ArrayFieldAt(Defined(OutlineJson(o)), "modules", i)
    ensures ArrayFieldAt(Defined(Lookup(OutlineJson(o).members, "modules").value.items[i]), "subtopics", sub)
    ensures var m := o.modules[i];
      WithSubtopic(Defined(OutlineJson(o)), i, sub, text) ==
      Defined(OutlineJson(o.(modules := o.modules[i := m.(subtopics := m.subtopics[sub := text])])))
  {
    var m := o.modules[i];
    var edited := m.(subtopics := m.subtopics[sub := text]);
    ModuleEditOnOutline(o, i, edited);
    LookupFirst(OutlineJson(o).members, "modules", 5);
    SubtopicEditOnModule(m, sub, text);
  }

  /** A module title edit on an outline renames that one module. */
  lemma WithModuleNameOnOutline(o: Outline, i: int, text: string)
    requires 0 <= i < |o.modules|
    ensures ArrayFieldAt(Defined(OutlineJson(o)), "modules", i)
    ensures WithModuleName(Defined(OutlineJson(o)), i, text) ==
      Defined(OutlineJson(o.(modules := o.modules[i := o.modules[i].(name := text)])))
  {
    ModuleEditOnOutline(o, i, o.modules[i].(name := text));
    LookupFirst(OutlineJson(o).members, "modules", 5);
    NameEditOnModule(o.modules[i], text);
  }

  /** The regenerate request `{"action": "update", "data": {"comments": c, "script": x}}`. */
  function RegenerateFrame(comments: string, x: JsValue): Json {
    Obj([("action", Str("update")), ("data", Obj([("comments", Str(comments))] + ScriptEntry(x)))])
  }

  /** The regenerate request names the action `update` and carries the notes and the outline. */
  lemma RegenerateFrameCarries(comments: string, x: JsValue)
    ensures Member(Defined(RegenerateFrame(comments, x)), "action") == Got(Defined(Str("update")))
    ensures Path(Defined(RegenerateFrame(comments, x)), ["data", "comments"]) == Got(Defined(Str(comments)))
    ensures Path(Defined(RegenerateFrame(comments, x)), ["data", "script"]) == Got(x)
  {
    var data := Obj([("comments", Str(comments))] + ScriptEntry(x));
    LookupFirst(RegenerateFrame(comments, x).members, "data", 1);
    assert Member(Defined(RegenerateFrame(comments, x)), "data") == Got(Defined(data));
    assert ["data", "comments"][1..] == ["comments"] && ["data", "script"][1..] == ["script"];
    assert ["comments"][1..] == [] && ["script"][1..] == [];
    assert Member(Defined(data), "comments") == Got(Defined(Str(comments)));
    assert Member(Defined(data), "script") == Got(x);
    assert Path(Defined(data), ["comments"]) == Path(Defined(Str(comments)), []);
    assert Path(Defined(data), ["script"]) == Path(x, []);
  }

  /** The editor's state: the outline, the change-detection ref, the typing ref and the debounce slots. */
  class OutlineEditor {
    /** `outlineData`. */
    var outline: JsValue
    /** `prevOutlineDataRef.current`: the outline last queued for sending. */
    var lastQueued: JsValue
    /** `isTyping.current`. */
    var isTyping: bool
    /** The argument of the pending debounced `sendUpdate` call, if one is pending. */
    var pendingUpdate: Option<JsValue>
    /** The argument of the pending debounced save, if one is pending. */
    var pendingSave: Option<JsValue>
    /** The frames sent on the outline socket. */
    var sent: seq<Json>

    /** Nothing ever sets `isTyping`: it starts false and only the update flush writes it, with false. */
    ghost predicate Valid()
      reads this
    {
      !isTyping
    }

    /**
     * The change-detection effect ran after the outline was set: an outline
     * not deep-equal to the one queued before is queued and recorded;
     * otherwise the queue and the record are as they were.
     */
    ghost predicate ChangeDetected(queuedBefore: JsValue, pendingBefore: Option<JsValue>)
      reads this
    {
      && (!IsEqual(outline, queuedBefore) ==> lastQueued == outline && pendingUpdate == Some(outline))
      && (IsEqual(outline, queuedBefore) ==> lastQueued == queuedBefore && pendingUpdate == pendingBefore)
    }

    constructor ()
      ensures Valid()
      ensures outline == Defined(Null) && lastQueued == Defined(Null)
      ensures pendingUpdate == None && pendingSave == None && sent == []
    {
      outline := Defined(Null);
      lastQueued := Defined(Null);
      isTyping := false;
      pendingUpdate := None;
      pendingSave := None;
      sent := [];
    }

    /**
     * `setOutlineData(v)` followed by the change-detection effect: a value
     * that is not deep-equal to the last queued one is queued and recorded.
     */
    method Commit(v: JsValue)
      modifies this
      ensures outline == v && ChangeDetected(old(lastQueued), old(pendingUpdate))
      ensures isTyping == old(isTyping) && pendingSave == old(pendingSave) && sent == old(sent)
    {
      outline := v;
      if !IsEqual(outline, lastQueued) {
        pendingUpdate := Some(outline);
        lastQueued := outline;
      }
    }

    /** `updateModule(index, m)`: nothing is set while the outline is falsy. */
    method UpdateModule(index: int, m: Json)
      requires Truthy(outline) ==> ArrayFieldAt(outline, "modules", index)
      modifies this
      ensures !Truthy(old(outline)) ==> outline == old(outline) && lastQueued == old(lastQueued) && pendingUpdate == old(pendingUpdate)
      ensures Truthy(old(outline)) ==> outline == WithModule(old(outline), index, m)
      ensures Truthy(old(outline)) ==> ChangeDetected(old(lastQueued), old(pendingUpdate))
      ensures isTyping == old(isTyping) && pendingSave == old(pendingSave) && sent == old(sent)
    {
      if Truthy(outline) {
        Commit(WithModule(outline, index, m));
      }
    }

    /**
     * A functional title edit. On a falsy outline the updater returns the
     * same value, so nothing re-renders and the effect does not run.
     */
    method SaveTitle(text: string)
      modifies this
      ensures outline == WithTitle(old(outline), text)
      ensures Truthy(old(outline)) ==> ChangeDetected(old(lastQueued), old(pendingUpdate))
      ensures !Truthy(old(outline)) ==> lastQueued == old(lastQueued) && pendingUpdate == old(pendingUpdate)
      ensures isTyping == old(isTyping) && pendingSave == old(pendingSave) && sent == old(sent)
    {
      if Truthy(outline) {
        Commit(WithTitle(outline, text));
      }
    }

    /** A functional summary edit, inert on a falsy outline. */
    method SaveSummary(text: string)
      modifies this
      ensures outline == WithSummary(old(outline), text)
      ensures Truthy(old(outline)) ==> ChangeDetected(old(lastQueued), old(pendingUpdate))
      ensures !Truthy(old(outline)) ==> lastQueued == old(lastQueued) && pendingUpdate == old(pendingUpdate)
      ensures isTyping == old(isTyping) && pendingSave == old(pendingSave) && sent == old(sent)
    {
      if Truthy(outline) {
        Commit(WithSummary(outline, text));
      }
    }

    /** A functional objective edit, inert on a falsy outline. */
    method SaveObjective(index: int, text: string)
      requires Truthy(outline) ==> ArrayFieldAt(outline, "objectives", index)
      modifies this
      ensures outline == WithObjective(old(outline), index, text)
      ensures Truthy(old(outline)) ==> ChangeDetected(old(lastQueued), old(pendingUpdate))
      ensures !Truthy(old(outline)) ==> lastQueued == old(lastQueued) && pendingUpdate == old(pendingUpdate)
      ensures isTyping == old(isTyping) && pendingSave == old(pendingSave) && sent == old(sent)
    {
      if Truthy(outline) {
        Commit(WithObjective(outline, index, text));
      }
    }

    /**
     * `onmessage`: an unparsable frame (`None`) or one whose `data.script`
     * read throws changes nothing; otherwise, since `isTyping` is never set,
     * the received script always replaces the outline, and is queued back
     * to the room unless it is deep-equal to the last queued outline.
     */
    method OnMessage(msg: Option<Json>)
      requires Valid()
      modifies this
      ensures Valid()
      ensures msg.Some? && Path(Defined(msg.value), ["data", "script"]).Got? ==>
        var script := Path(Defined(msg.value), ["data", "script"]).value;
        outline == script && ChangeDetected(old(lastQueued), old(pendingUpdate))
      ensures msg.None? || Path(Defined(msg.value), ["data", "script"]).Threw? ==>
        outline == old(outline) && lastQueued == old(lastQueued) && pendingUpdate == old(pendingUpdate)
      ensures pendingSave == old(pendingSave) && sent == old(sent)
    {
      if msg.Some? {
        match Path(Defined(msg.value), ["data", "script"])
        case Threw =>
        case Got(script) =>
          if !isTyping {
            Commit(script);
          }
      }
    }

    /** The debounced update fires: send the change if the socket is open, and clear `isTyping`. */
    method FlushUpdate(open: bool)
      requires Valid()
      modifies this
      ensures Valid()
      ensures pendingUpdate == None
      ensures old(pendingUpdate).Some? && open ==> sent == old(sent) + [UpdateFrame(old(pendingUpdate).value)]
      ensures old(pendingUpdate).None? || !open ==> sent == old(sent)
      ensures outline == old(outline) && lastQueued == old(lastQueued) && pendingSave == old(pendingSave)
    {
      if pendingUpdate.Some? {
        if open {
          sent := sent + [UpdateFrame(pendingUpdate.value)];
        }
        isTyping := false;
        pendingUpdate := None;
      }
    }

    /** The SAVE button: the debounced save is called with the current outline. */
    method SendSave()
      modifies this
      ensures pendingSave == Some(old(outline))
      ensures outline == old(outline) && lastQueued == old(lastQueued) && isTyping == old(isTyping)
      ensures pendingUpdate == old(pendingUpdate) && sent == old(sent)
    {
      pendingSave := Some(outline);
    }

    /** The debounced save fires: the save request goes out only if the socket is open. */
    method FlushSave(open: bool)
      modifies this
      ensures pendingSave == None
      ensures old(pendingSave).Some? && open ==> sent == old(sent) + [SaveFrame(old(pendingSave).value)]
      ensures old(pendingSave).None? || !open ==> sent == old(sent)
      ensures outline == old(outline) && lastQueued == old(lastQueued) && isTyping == old(isTyping)
      ensures pendingUpdate == old(pendingUpdate)
    {
      if pendingSave.Some? {
        if open {
          sent := sent + [SaveFrame(pendingSave.value)];
        }
        pendingSave := None;
      }
    }

    /** `onRegenerate(comments)`: sent at once, not debounced, only if the socket is open. */
    method Regenerate(comments: string, open: bool)
      modifies this
      ensures open ==> sent == old(sent) + [RegenerateFrame(comments, old(outline))]
      ensures !open ==> sent == old(sent)
      ensures outline == old(outline) && lastQueued == old(lastQueued) && isTyping == old(isTyping)
      ensures pendingUpdate == old(pendingUpdate) && pendingSave == old(pendingSave)
    {
      if open {
        sent := sent + [RegenerateFrame(comments, outline)];
      }
    }
  }

  /**
   * Before any message the outline is `null` and edits do nothing; the
   * first outline received is taken as it is and queued to be sent back.
   */
  method FirstOutlineIsEchoed(o: Outline)
  {
    var e := new OutlineEditor();
    e.SaveTitle("draft");
    assert e.outline == Defined(Null) && e.pendingUpdate == None;
    var msg := Obj([("data", Obj([("script", OutlineJson(o))]))]);
    ReadNested("data", "script", OutlineJson(o));
    e.OnMessage(Some(msg));
    assert e.outline == Defined(OutlineJson(o));
    assert e.pendingUpdate == Some(Defined(OutlineJson(o)));
    e.FlushUpdate(true);
    assert e.sent == [UpdateFrame(Defined(OutlineJson(o)))];
  }
}
