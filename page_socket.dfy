/**
 * The frames the page editor and the page viewer exchange on the document
 * socket: the debounced navigation and save actions `{action}`, the
 * editor's content update `{data: {content}}`, and the way both read an
 * incoming frame, `data.data.content` and `data.meta`. The lemmas set these
 * shapes against what the document room relay reads and broadcasts.
 */
module PageSocket {
  import opened Wrappers
  import opened Json
  import opened JsValues
  import DocumentRoom

  /** The buttons wired to the debounced action sender. */
  datatype PageAction = Next | Prev | Save

  /** The action name each button sends: `next`, `back` and `save`. */
  function ActionName(a: PageAction): (name: string)
    ensures a == Next <==> name == "next"
    ensures a == Prev <==> name == "back"
    ensures a == Save <==> name == "save"
  {
    match a
    case Next => "next"
    case Prev => "back"
    case Save => "save"
  }

  /** Different buttons send different actions. */
  lemma ActionNameInjective(a: PageAction, b: PageAction)
    requires ActionName(a) == ActionName(b)
    ensures a == b
  {
  }

  /** The frame `JSON.stringify({ action })`. */
  function ActionFrame(name: string): Json {
    Obj([("action", Str(name))])
  }

  /** The frame `JSON.stringify({ data: { content } })`. */
  function ContentFrame(text: string): Json {
    Obj([("data", Obj([("content", Str(text))]))])
  }

  /**
   * An incoming frame as the page components read it: `data.data.content`
   * then `data.meta`. None when the first read throws, which the handler
   * catches; the second cannot throw once the first has succeeded.
   */
  function ReadPage(msg: Json): (r: Option<(JsValue, JsValue)>)
    ensures r.None? <==> Path(Defined(msg), ["data", "content"]).Threw?
    ensures r.Some? ==>
      && msg.Obj?
      && r.value.0 == Path(Defined(msg), ["data", "content"]).value
      && r.value.1 == Member(Defined(msg), "meta").value
  {
    match Path(Defined(msg), ["data", "content"])
    case Threw => None
    case Got(content) =>
      NestedReadThrows(Defined(msg), "data", "content");
      Some((content, Member(Defined(msg), "meta").value))
  }

  /**
   * A content frame reads back as its text with no metadata, and a frame
   * `{data: {content}, meta}` as its content and metadata.
   */
  lemma ReadPageFrames(text: string, content: Json, meta: Json)
    ensures ReadPage(ContentFrame(text)) == Some((Defined(Str(text)), Undefined))
    ensures ReadPage(Obj([("data", Obj([("content", content)])), ("meta", meta)])) == Some((Defined(content), Defined(meta)))
  {
    ReadNested("data", "content", Str(text));
    var msg := Obj([("data", Obj([("content", content)])), ("meta", meta)]);
    assert Member(Defined(msg), "data") == Got(Defined(Obj([("content", content)])));
    assert Member(Defined(Obj([("content", content)])), "content") == Got(Defined(content));
    assert ["data", "content"][1..] == ["content"];
    assert ["content"][1..] == [];
    assert Path(Defined(Obj([("content", content)])), ["content"]) == Path(Defined(content), []);
    assert Path(Defined(msg), ["data", "content"]) == Got(Defined(content));
    assert msg.members[0].0 != "meta" && msg.members[1..] == [("meta", meta)];
    assert Lookup([("meta", meta)], "meta") == Some(meta);
    assert Lookup(msg.members, "meta") == Lookup(msg.members[1..], "meta");
    assert Member(Defined(msg), "meta") == Got(Defined(meta));
  }

  /**
   * The relay reads a top-level `content`, so it refuses both frames the
   * page components send with a KeyError and relays nothing.
   */
  lemma RoomRejectsPageFrames(text: string, name: string)
    ensures DocumentRoom.ReadContent(ContentFrame(text)) == DocumentRoom.Err(DocumentRoom.KeyError)
    ensures DocumentRoom.ReadContent(ActionFrame(name)) == DocumentRoom.Err(DocumentRoom.KeyError)
  {
  }

  /**
   * What the relay broadcasts, `{content}`, has no `data` member, so the
   * page components' read `data.data.content` throws on it.
   */
  lemma PageReadRejectsRoomBroadcast(content: Json)
    ensures ReadPage(DocumentRoom.DocumentUpdate(content)) == None
  {
    NestedReadThrows(Defined(DocumentRoom.DocumentUpdate(content)), "data", "content");
  }
}
