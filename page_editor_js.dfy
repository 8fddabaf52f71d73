/**
 * The JavaScript page editor: a text area with the same typing flag and
 * debounced update as the TypeScript editor, but it sends `{content}` and
 * reads the top-level `data.content` of an incoming frame, the shapes the
 * document room relay reads and broadcasts.
 */
module PageEditorJs {
  import opened Wrappers
  import opened Json
  import opened JsValues
  import DocumentRoom

  /** The frame `JSON.stringify({ content })`. */
  function UpdateFrame(text: string): Json {
    Obj([("content", Str(text))])
  }

  /**
   * The relay reads back exactly the text this editor sends, and the frame
   * it broadcasts for it is the one that was sent.
   */
  lemma RoomRelaysUpdate(text: string)
    ensures DocumentRoom.ReadContent(UpdateFrame(text)) == DocumentRoom.Ok(Str(text))
    ensures DocumentRoom.DocumentUpdate(Str(text)) == UpdateFrame(text)
  {
  }

  /** What the relay broadcasts reads back, through `data.content`, as the content it carries. */
  lemma BroadcastReadsBack(content: Json)
    ensures Member(Defined(DocumentRoom.DocumentUpdate(content)), "content") == Got(Defined(content))
  {
  }

  class PageEditor {
    /** `content`, shown in the text area; a frame without `content` makes it `undefined`. */
    var content: JsValue
    /** `isTyping.current`. */
    var isTyping: bool
    /** The argument of the pending debounced `sendUpdate`, if one is pending. */
    var pendingUpdate: Option<string>
    /** The frames sent on the document socket. */
    var sent: seq<Json>

    /** The typing flag is set exactly while an update is pending, and that update is on screen. */
    ghost predicate Valid()
      reads this
    {
      && (isTyping <==> pendingUpdate.Some?)
      && (pendingUpdate.Some? ==> content == Defined(Str(pendingUpdate.value)))
    }

    constructor ()
      ensures Valid()
      ensures content == Defined(Str("")) && !isTyping && sent == []
    {
      content := Defined(Str(""));
      isTyping := false;
      pendingUpdate := None;
      sent := [];
    }

    /** `handleChange`: the text area's value is shown, flagged and queued. */
    method HandleChange(text: string)
      requires Valid()
      modifies this
      ensures Valid()
      ensures content == Defined(Str(text)) && isTyping && pendingUpdate == Some(text)
      ensures sent == old(sent)
    {
      content := Defined(Str(text));
      isTyping := true;
      pendingUpdate := Some(text);
    }

    /**
     * `onmessage`: while typing nothing changes; otherwise the content
     * becomes `data.content`, and a frame whose read throws (`null`)
     * changes nothing.
     */
    method OnMessage(msg: Option<Json>)
      requires Valid()
      modifies this
      ensures Valid()
      ensures !old(isTyping) && msg.Some? && Member(Defined(msg.value), "content").Got? ==>
        content == Member(Defined(msg.value), "content").value
      ensures old(isTyping) || msg.None? || Member(Defined(msg.value), "content").Threw? ==>
        content == old(content)
      ensures isTyping == old(isTyping) && pendingUpdate == old(pendingUpdate) && sent == old(sent)
    {
      if msg.Some? {
        match Member(Defined(msg.value), "content")
        case Threw =>
        case Got(c) =>
          if !isTyping {
            content := c;
          }
      }
    }

    /** The debounced update fires: `{content}` goes out if the socket is open; the flag is cleared. */
    method FlushUpdate(open: bool)
      requires Valid()
      modifies this
      ensures Valid()
      ensures !isTyping && pendingUpdate == None
      ensures old(pendingUpdate).Some? && open ==> sent == old(sent) + [UpdateFrame(old(pendingUpdate).value)]
      ensures old(pendingUpdate).None? || !open ==> sent == old(sent)
      ensures content == old(content)
    {
      if pendingUpdate.Some? {
        if open {
          sent := sent + [UpdateFrame(pendingUpdate.value)];
        }
        isTyping := false;
        pendingUpdate := None;
      }
    }
  }

  /** A fresh editor that takes an edit and flushes it on an open socket sends `{content}` with that text. */
  method SendEdit(text: string) returns (frame: Json)
    ensures frame == UpdateFrame(text)
  {
    var editor := new PageEditor();
    editor.HandleChange(text);
    editor.FlushUpdate(true);
    frame := editor.sent[0];
  }

  /**
   * Two relays joined to one document's room: a frame the first receives
   * reaches the second as the broadcast of the content it read.
   */
  method RelayToPeer(docId: string, frame: Json) returns (atPeer: seq<Json>)
    requires DocumentRoom.ReadContent(frame).Ok?
    ensures atPeer == [DocumentRoom.DocumentUpdate(DocumentRoom.ReadContent(frame).value)]
  {
    var layer := new DocumentRoom.ChannelLayer();
    var relayA := new DocumentRoom.DocumentConsumer("a", layer);
    var relayB := new DocumentRoom.DocumentConsumer("b", layer);
    relayA.Connect(docId);
    relayB.Connect(docId);
    var r := relayA.Receive(Some(frame));
    atPeer := layer.Sent("b");
  }

  /** An idle editor shows the `content` of a frame it receives. */
  method ShowFrame(frame: Json) returns (shown: JsValue)
    requires Member(Defined(frame), "content").Got?
    ensures shown == Member(Defined(frame), "content").value
  {
    var editor := new PageEditor();
    editor.OnMessage(Some(frame));
    shown := editor.content;
  }

  /**
   * Two editors on one document: an edit in the first reaches the relay,
   * which broadcasts it to both, and the idle second editor then shows it.
   */
  method EditReachesPeer(docId: string, text: string) returns (shown: JsValue)
    ensures shown == Defined(Str(text))
  {
    var frame := SendEdit(text);
    RoomRelaysUpdate(text);
    var atPeer := RelayToPeer(docId, frame);
    BroadcastReadsBack(Str(text));
    shown := ShowFrame(atPeer[0]);
  }
}
