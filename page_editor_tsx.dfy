/**
 * The TypeScript page editor: local edits show at once and set the typing
 * flag; a debounced update sends the latest edit and clears the flag; an
 * incoming frame replaces the content and the page metadata only while
 * the flag is clear; the Next, Back and Save buttons share one debounced
 * action sender.
 */
module PageEditorTsx {
  import opened Wrappers
  import opened Json
  import opened JsValues
  import opened PageSocket

  class PageEditor {
    /** `content`, shown in the editor. */
    var content: JsValue
    /** `metaData`. */
    var meta: JsValue
    /** `isTyping.current`. */
    var isTyping: bool
    /** The argument of the pending debounced `sendUpdate`, if one is pending. */
    var pendingUpdate: Option<string>
    /** The argument of the pending debounced action, if one is pending. */
    var pendingAction: Option<string>
    /** The frames sent on the document socket. */
    var sent: seq<Json>

    /**
     * The typing flag is set exactly while an update is pending, and the
     * pending update is the text on screen: no incoming frame can replace
     * an edit before it has gone out.
     */
    ghost predicate Valid()
      reads this
    {
      && (isTyping <==> pendingUpdate.Some?)
      && (pendingUpdate.Some? ==> content == Defined(Str(pendingUpdate.value)))
    }

    constructor ()
      ensures Valid()
      ensures content == Defined(Str("")) && meta == Defined(Null)
      ensures !isTyping && pendingAction == None && sent == []
    {
      content := Defined(Str(""));
      meta := Defined(Null);
      isTyping := false;
      pendingUpdate := None;
      pendingAction := None;
      sent := [];
    }

    /** `handleChange`: an `undefined` value is ignored; text is shown, flagged and queued. */
    method HandleChange(newValue: Option<string>)
      requires Valid()
      modifies this
      ensures Valid()
      ensures newValue.Some? ==> content == Defined(Str(newValue.value)) && isTyping && pendingUpdate == newValue
      ensures newValue.None? ==> content == old(content) && isTyping == old(isTyping) && pendingUpdate == old(pendingUpdate)
      ensures meta == old(meta) && pendingAction == old(pendingAction) && sent == old(sent)
    {
      if newValue.Some? {
        content := Defined(Str(newValue.value));
        isTyping := true;
        pendingUpdate := newValue;
      }
    }

    /**
     * `onmessage`: while typing nothing changes; otherwise content and
     * metadata are read from the frame, and a frame whose read throws
     * changes nothing.
     */
    method OnMessage(msg: Option<Json>)
      requires Valid()
      modifies this
      ensures Valid()
      ensures !old(isTyping) && msg.Some? && ReadPage(msg.value).Some? ==>
        content == ReadPage(msg.value).value.0 && meta == ReadPage(msg.value).value.1
      ensures old(isTyping) || msg.None? || ReadPage(msg.value).None? ==>
        content == old(content) && meta == old(meta)
      ensures isTyping == old(isTyping) && pendingUpdate == old(pendingUpdate)
      ensures pendingAction == old(pendingAction) && sent == old(sent)
    {
      if msg.Some? {
        match ReadPage(msg.value)
        case None =>
        case Some(page) =>
          if !isTyping {
            content := page.0;
            meta := page.1;
          }
      }
    }

    /**
     * The debounced update fires: the latest edit goes out as
     * `{data: {content}}` if the socket is open, and the flag is cleared
     * whether or not it was sent.
     */
    method FlushUpdate(open: bool)
      requires Valid()
      modifies this
      ensures Valid()
      ensures !isTyping && pendingUpdate == None
      ensures old(pendingUpdate).Some? && open ==> sent == old(sent) + [ContentFrame(old(pendingUpdate).value)]
      ensures old(pendingUpdate).None? || !open ==> sent == old(sent)
      ensures content == old(content) && meta == old(meta) && pendingAction == old(pendingAction)
    {
      if pendingUpdate.Some? {
        if open {
          sent := sent + [ContentFrame(pendingUpdate.value)];
        }
        isTyping := false;
        pendingUpdate := None;
      }
    }

    /** A Next, Back or Save click: the debounced sender keeps only the latest action. */
    method Press(a: PageAction)
      modifies this
      ensures pendingAction == Some(ActionName(a))
      ensures content == old(content) && meta == old(meta) && isTyping == old(isTyping)
      ensures pendingUpdate == old(pendingUpdate) && sent == old(sent)
    {
      pendingAction := Some(ActionName(a));
    }

    /** The debounced action fires: `{action}` goes out only if the socket is open. */
    method FlushAction(open: bool)
      modifies this
      ensures pendingAction == None
      ensures old(pendingAction).Some? && open ==> sent == old(sent) + [ActionFrame(old(pendingAction).value)]
      ensures old(pendingAction).None? || !open ==> sent == old(sent)
      ensures content == old(content) && meta == old(meta) && isTyping == old(isTyping)
      ensures pendingUpdate == old(pendingUpdate)
    {
      if pendingAction.Some? {
        if open {
          sent := sent + [ActionFrame(pendingAction.value)];
        }
        pendingAction := None;
      }
    }
  }

  /**
   * A frame that arrives between an edit and its flush is dropped, so the
   * edit is what goes out; once flushed, the next frame is taken.
   */
  method EditSurvivesIncomingFrame(text: string, other: string, meta: Json)
  {
    var e := new PageEditor();
    var incoming := Obj([("data", Obj([("content", Str(other))])), ("meta", meta)]);
    ReadPageFrames(other, Str(other), meta);
    e.HandleChange(Some(text));
    e.OnMessage(Some(incoming));
    assert e.content == Defined(Str(text));
    e.FlushUpdate(true);
    assert e.sent == [ContentFrame(text)];
    e.OnMessage(Some(incoming));
    assert e.content == Defined(Str(other)) && e.meta == Defined(meta);
  }

  /** Two quick clicks, Next then Back, send only `back`. */
  method LatestActionWins()
  {
    var e := new PageEditor();
    e.Press(Next);
    e.Press(Prev);
    e.FlushAction(true);
    assert e.sent == [ActionFrame("back")];
  }
}
