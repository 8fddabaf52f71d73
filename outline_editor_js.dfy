/**
 * The JavaScript outline editor: the same edits, change detection, typing
 * ref and save request as the TypeScript editor, but the outline starts as
 * the empty object `{}`, the edits have no guard against a missing
 * outline, and there is no regenerate request.
 */
module OutlineEditorJs {
  import opened Wrappers
  import opened Json
  import opened JsValues
  import opened OutlineEdits
  import OutlineEditorTsx

  /**
   * Without the guard the title edit turns even `null` into an object,
   * `{title: text}`, where the TypeScript editor keeps `null`; and on the
   * initial `{}` it yields `{title: text}`.
   */
  lemma UnguardedTitleEdit(text: string)
    ensures SpreadWith(Defined(Null), "title", Str(text)) == Obj([("title", Str(text))])
    ensures SpreadWith(Defined(Obj([])), "title", Str(text)) == Obj([("title", Str(text))])
    ensures OutlineEditorTsx.WithTitle(Defined(Null), text) == Defined(Null)
  {
  }

  class OutlineEditor {
    /** `outlineData`. */
    var outline: JsValue
    /** `prevOutlineDataRef.current`: the outline last queued for sending. */
    var lastQueued: JsValue
    /** `isTyping.current`. */
    var isTyping: bool
    /** The argument of the pending debounced `sendUpdate` call, if one is pending. */
    var pendingUpdate: Option<JsValue>
    /** The argument of the pending debounced save, if one is pending. */
    var pendingSave: Option<JsValue>
    /** The frames sent on the outline socket. */
    var sent: seq<Json>

    /** Nothing ever sets `isTyping`: it starts false and only the update flush writes it, with false. */
    ghost predicate Valid()
      reads this
    {
      !isTyping
    }

    /**
     * The change-detection effect ran after the outline was set: an outline
     * not deep-equal to the one queued before is queued and recorded;
     * otherwise the queue and the record are as they were.
     */
    ghost predicate ChangeDetected(queuedBefore: JsValue, pendingBefore: Option<JsValue>)
      reads this
    {
      && (!IsEqual(outline, queuedBefore) ==> lastQueued == outline && pendingUpdate == Some(outline))
      && (IsEqual(outline, queuedBefore) ==> lastQueued == queuedBefore && pendingUpdate == pendingBefore)
    }

    constructor ()
      ensures Valid()
      ensures outline == Defined(Obj([])) && lastQueued == Defined(Obj([]))
      ensures pendingUpdate == None && pendingSave == None && sent == []
    {
      outline := Defined(Obj([]));
      lastQueued := Defined(Obj([]));
      isTyping := false;
      pendingUpdate := None;
      pendingSave := None;
      sent := [];
    }

    /**
     * `setOutlineData(v)` followed by the change-detection effect: a value
     * that is not deep-equal to the last queued one is queued and recorded.
     */
    method Commit(v: JsValue)
      modifies this
      ensures outline == v && ChangeDetected(old(lastQueued), old(pendingUpdate))
      ensures isTyping == old(isTyping) && pendingSave == old(pendingSave) && sent == old(sent)
    {
      outline := v;
      if !IsEqual(outline, lastQueued) {
        pendingUpdate := Some(outline);
        lastQueued := outline;
      }
    }

    /** `updateModule(index, m)`: no guard; the modules list must be there to be copied. */
    method UpdateModule(index: int, m: Json)
      requires ArrayFieldAt(outline, "modules", index)
      modifies this
      ensures outline == Defined(ReplaceItem(old(outline), "modules", index, m))
      ensures ChangeDetected(old(lastQueued), old(pendingUpdate))
      ensures isTyping == old(isTyping) && pendingSave == old(pendingSave) && sent == old(sent)
    {
      Commit(Defined(ReplaceItem(outline, "modules", index, m)));
    }

    /** The subtopic edit of module `index`: `handleSubtopicChange` then `updateModule`. */
    method SaveSubtopic(index: int, sub: int, text: string)
      requires ArrayFieldAt(outline, "modules", index)
      requires ArrayFieldAt(Defined(Lookup(outline.json.members, "modules").value.items[index]), "subtopics", sub)
      modifies this
      ensures var item := Lookup(old(outline).json.members, "modules").value.items[index];
        outline == Defined(ReplaceItem(old(outline), "modules", index, SubtopicEdit(item, sub, text)))
      ensures ChangeDetected(old(lastQueued), old(pendingUpdate))
      ensures isTyping == old(isTyping) && pendingSave == old(pendingSave) && sent == old(sent)
    {
      var item := Lookup(outline.json.members, "modules").value.items[index];
      UpdateModule(index, SubtopicEdit(item, sub, text));
    }

    /** The title edit `{...outlineData, title: text}`, on whatever the outline is. */
    method SaveTitle(text: string)
      modifies this
      ensures outline == Defined(SpreadWith(old(outline), "title", Str(text)))
      ensures ChangeDetected(old(lastQueued), old(pendingUpdate))
      ensures isTyping == old(isTyping) && pendingSave == old(pendingSave) && sent == old(sent)
    {
      Commit(Defined(SpreadWith(outline, "title", Str(text))));
    }

    /** The summary edit `{...outlineData, summary: text}`. */
    method SaveSummary(text: string)
      modifies this
      ensures outline == Defined(SpreadWith(old(outline), "summary", Str(text)))
      ensures ChangeDetected(old(lastQueued), old(pendingUpdate))
      ensures isTyping == old(isTyping) && pendingSave == old(pendingSave) && sent == old(sent)
    {
      Commit(Defined(SpreadWith(outline, "summary", Str(text))));
    }

    /** The objective edit: copy the objectives, replace item `index`, spread. */
    method SaveObjective(index: int, text: string)
      requires ArrayFieldAt(outline, "objectives", index)
      modifies this
      ensures outline == Defined(ReplaceItem(old(outline), "objectives", index, Str(text)))
      ensures ChangeDetected(old(lastQueued), old(pendingUpdate))
      ensures isTyping == old(isTyping) && pendingSave == old(pendingSave) && sent == old(sent)
    {
      Commit(Defined(ReplaceItem(outline, "objectives", index, Str(text))));
    }

    /**
     * `onmessage`: since `isTyping` is never set, every frame whose
     * `data.script` can be read replaces the outline, and is queued back
     * unless it is deep-equal to the last queued outline.
     */
    method OnMessage(msg: Option<Json>)
      requires Valid()
      modifies this
      ensures Valid()
      ensures msg.Some? && Path(Defined(msg.value), ["data", "script"]).Got? ==>
        var script := Path(Defined(msg.value), ["data", "script"]).value;
        outline == script && ChangeDetected(old(lastQueued), old(pendingUpdate))
      ensures msg.None? || Path(Defined(msg.value), ["data", "script"]).Threw? ==>
        outline == old(outline) && lastQueued == old(lastQueued) && pendingUpdate == old(pendingUpdate)
      ensures pendingSave == old(pendingSave) && sent == old(sent)
    {
      if msg.Some? {
        match Path(Defined(msg.value), ["data", "script"])
        case Threw =>
        case Got(script) =>
          if !isTyping {
            Commit(script);
          }
      }
    }

    /** The debounced update fires: send the change if the socket is open, and clear `isTyping`. */
    method FlushUpdate(open: bool)
      requires Valid()
      modifies this
      ensures Valid()
      ensures pendingUpdate == None
      ensures old(pendingUpdate).Some? && open ==> sent == old(sent) + [UpdateFrame(old(pendingUpdate).value)]
      ensures old(pendingUpdate).None? || !open ==> sent == old(sent)
      ensures outline == old(outline) && lastQueued == old(lastQueued) && pendingSave == old(pendingSave)
    {
      if pendingUpdate.Some? {
        if open {
          sent := sent + [UpdateFrame(pendingUpdate.value)];
        }
        isTyping := false;
        pendingUpdate := None;
      }
    }

    /** The SAVE button: the debounced save is called with the current outline. */
    method SendSave()
      modifies this
      ensures pendingSave == Some(old(outline))
      ensures outline == old(outline) && lastQueued == old(lastQueued) && isTyping == old(isTyping)
      ensures pendingUpdate == old(pendingUpdate) && sent == old(sent)
    {
      pendingSave := Some(outline);
    }

    /** The debounced save fires: the save request goes out only if the socket is open. */
    method FlushSave(open: bool)
      modifies this
      ensures pendingSave == None
      ensures old(pendingSave).Some? && open ==> sent == old(sent) + [SaveFrame(old(pendingSave).value)]
      ensures old(pendingSave).None? || !open ==> sent == old(sent)
      ensures outline == old(outline) && lastQueued == old(lastQueued) && isTyping == old(isTyping)
      ensures pendingUpdate == old(pendingUpdate)
    {
      if pendingSave.Some? {
        if open {
          sent := sent + [SaveFrame(pendingSave.value)];
        }
        pendingSave := None;
      }
    }
  }

  /**
   * Saving a title before any outline arrives sends `{title}` as the
   * outline; the first edit on the initial `{}` is queued because it is no
   * longer deep-equal to `{}`.
   */
  method TitleBeforeOutline(text: string)
  {
    var e := new OutlineEditor();
    assert !DeepEqual(Obj([("title", Str(text))]), Obj([]));
    e.SaveTitle(text);
    UnguardedTitleEdit(text);
    assert e.outline == Defined(Obj([("title", Str(text))]));
    assert e.pendingUpdate == Some(e.outline);
    e.SendSave();
    e.FlushSave(true);
    assert e.sent == [SaveFrame(Defined(Obj([("title", Str(text))])))];
  }
}
