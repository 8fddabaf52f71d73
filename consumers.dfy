/**
 * The document room relay. A channel layer keeps named groups of channel
 * names and, per channel, the frames that have been pushed to its client.
 * A DocumentConsumer joins the group `document_<doc_id>` on connect, leaves
 * it on disconnect, and on every received frame broadcasts the frame's
 * `content` value to every member of the group, the sender included.
 */
module DocumentRoom {
  import opened Wrappers
  import opened Json

  /** Channels identifies a connection by the string name the layer gave it. */
  type ChannelName = string

  /** The Python exceptions a consumer handler can raise. */
  datatype PyError = JSONDecodeError | KeyError | TypeError | AttributeError

  datatype Outcome = Done | Raised(error: PyError)

  /** The frames in an outbox map for one channel; a channel never written to has none. */
  function SentIn(outbox: map<ChannelName, seq<Json>>, ch: ChannelName): seq<Json> {
    if ch in outbox then outbox[ch] else []
  }

  /** The outbox map after `msg` is pushed to every channel of `members`. */
  function Delivered(outbox: map<ChannelName, seq<Json>>, members: set<ChannelName>, msg: Json): (r: map<ChannelName, seq<Json>>)
    ensures forall ch :: ch in members ==> SentIn(r, ch) == SentIn(outbox, ch) + [msg]
    ensures forall ch :: ch !in members ==> SentIn(r, ch) == SentIn(outbox, ch)
  {
    map ch | ch in outbox.Keys + members :: if ch in members then SentIn(outbox, ch) + [msg] else outbox[ch]
  }

  /** Pushing to nobody changes no outbox. */
  lemma DeliveredToNobody(outbox: map<ChannelName, seq<Json>>, msg: Json)
    ensures Delivered(outbox, {}, msg) == outbox
  {
  }

  /** Pushing to one more channel extends that channel's outbox only. */
  lemma DeliveredStep(outbox: map<ChannelName, seq<Json>>, done: set<ChannelName>, ch: ChannelName, msg: Json)
    requires ch !in done
    ensures var d := Delivered(outbox, done, msg);
      d[ch := SentIn(d, ch) + [msg]] == Delivered(outbox, done + {ch}, msg)
  {
    var d := Delivered(outbox, done, msg);
    var lhs := d[ch := SentIn(d, ch) + [msg]];
    var rhs := Delivered(outbox, done + {ch}, msg);
    assert lhs.Keys == rhs.Keys;
    forall c | c in lhs.Keys ensures lhs[c] == rhs[c] {
      assert SentIn(lhs, c) == SentIn(rhs, c);
    }
  }

  /** The group a document room uses: `f"document_{doc_id}"`. */
  function GroupName(docId: string): (g: string)
    ensures |g| == 9 + |docId| && g[9..] == docId
  {
    "document_" + docId
  }

  /** Different document ids never share a group. */
  lemma {:induction false} GroupNameInjective(a: string, b: string)
    requires GroupName(a) == GroupName(b)
    ensures a == b
  {
    assert a == GroupName(a)[9..];
    assert b == GroupName(b)[9..];
  }

  /**
   * The frame `document_update` sends for a group event:
   * `{"content": event["content"]}`.
   */
  function DocumentUpdate(content: Json): Json {
    Obj([("content", content)])
  }

  /** `data["content"]` on the parsed frame, with the exception Python raises when it fails. */
  function ReadContent(data: Json): (r: Result)
    ensures r.Ok? <==> Get(data, "content").Some?
    ensures r.Ok? ==> r.value == Get(data, "content").value
    ensures r.Err? ==> (r.error == KeyError <==> data.Obj?)
  {
    if !data.Obj? then Err(TypeError)
    else match Lookup(data.members, "content")
      case Some(c) => Ok(c)
      case None => Err(KeyError)
  }

  datatype Result = Ok(value: Json) | Err(error: PyError)

  /** The groups and per-channel outboxes a channel layer keeps. */
  class ChannelLayer {
    var groups: map<string, set<ChannelName>>
    var outbox: map<ChannelName, seq<Json>>

    /** The channels currently in `group`. */
    function Members(group: string): set<ChannelName>
      reads this
    {
      if group in groups then groups[group] else {}
    }

    /** The frames pushed so far to `ch`'s client. */
    function Sent(ch: ChannelName): seq<Json>
      reads this
    {
      SentIn(outbox, ch)
    }

    constructor ()
      ensures groups == map[] && outbox == map[]
    {
      groups := map[];
      outbox := map[];
    }

    /** `group_add`: the channel joins the group, which is created if needed. */
    method GroupAdd(group: string, ch: ChannelName)
      modifies this
      ensures groups == old(groups)[group := old(Members(group)) + {ch}]
      ensures outbox == old(outbox)
    {
      groups := groups[group := Members(group) + {ch}];
    }

    /**
     * `group_discard`: the channel leaves the group; a group left empty is
     * dropped; every other group and channel is untouched.
     */
    method GroupDiscard(group: string, ch: ChannelName)
      modifies this
      ensures Members(group) == old(Members(group)) - {ch}
      ensures forall g :: g != group ==> (g in groups <==> g in old(groups)) && Members(g) == old(Members(g))
      ensures group in groups <==> Members(group) != {}
      ensures outbox == old(outbox)
    {
      if group in groups {
        var rest := groups[group] - {ch};
        if rest == {} {
          groups := groups - {group};
        } else {
          groups := groups[group := rest];
        }
      }
    }

    /** `group_send`: the frame is pushed to every current member, in turn. */
    method GroupSend(group: string, msg: Json)
      modifies this
      ensures groups == old(groups)
      ensures outbox == Delivered(old(outbox), Members(group), msg)
    {
      var members := Members(group);
      var remaining := members;
      DeliveredToNobody(outbox, msg);
      assert members - remaining == {};
      while remaining != {}
        invariant remaining <= members
        invariant groups == old(groups)
        invariant outbox == Delivered(old(outbox), members - remaining, msg)
        decreases remaining
      {
        var ch :| ch in remaining;
        DeliveredStep(old(outbox), members - remaining, ch, msg);
        outbox := outbox[ch := SentIn(outbox, ch) + [msg]];
        assert members - remaining + {ch} == members - (remaining - {ch});
        remaining := remaining - {ch};
      }
    }
  }

  /** One websocket connection to a document room. */
  class DocumentConsumer {
    const channelName: ChannelName
    const layer: ChannelLayer
    /** `self.room_group_name`, which exists only once `connect` ran. */
    var roomGroupName: Option<string>
    var accepted: bool

    constructor (channelName: ChannelName, layer: ChannelLayer)
      ensures this.channelName == channelName && this.layer == layer
      ensures roomGroupName == None && !accepted
    {
      this.channelName := channelName;
      this.layer := layer;
      roomGroupName := None;
      accepted := false;
    }

    /** `connect`: join the group `document_<doc_id>` and accept the socket. */
    method Connect(docId: string)
      modifies this, layer
      ensures roomGroupName == Some(GroupName(docId)) && accepted
      ensures layer.groups == old(layer.groups)[GroupName(docId) := old(layer.Members(GroupName(docId))) + {channelName}]
      ensures layer.outbox == old(layer.outbox)
    {
      roomGroupName := Some(GroupName(docId));
      layer.GroupAdd(GroupName(docId), channelName);
      accepted := true;
    }

    /**
     * `disconnect`: leave the group; other members stay. Before `connect` the
     * attribute does not exist and Python raises AttributeError.
     */
    method Disconnect() returns (r: Outcome)
      modifies layer
      ensures roomGroupName.None? ==> r == Raised(AttributeError) && layer.groups == old(layer.groups)
      ensures roomGroupName.Some? ==>
        && r == Done
        && layer.Members(roomGroupName.value) == old(layer.Members(roomGroupName.value)) - {channelName}
        && forall g :: g != roomGroupName.value ==> layer.Members(g) == old(layer.Members(g))
      ensures layer.outbox == old(layer.outbox)
    {
      if roomGroupName.None? {
        return Raised(AttributeError);
      }
      layer.GroupDiscard(roomGroupName.value, channelName);
      r := Done;
    }

    /**
     * `receive`: parse the frame, read its `content` and broadcast
     * `{"content": content}` to the room. `parsed` is None when the text is
     * not JSON. Any failure raises before anything is sent.
     */
    method Receive(parsed: Option<Json>) returns (r: Outcome)
      modifies layer
      ensures layer.groups == old(layer.groups)
      ensures parsed.None? ==> r == Raised(JSONDecodeError) && layer.outbox == old(layer.outbox)
      ensures parsed.Some? && ReadContent(parsed.value).Err? ==>
        r == Raised(ReadContent(parsed.value).error) && layer.outbox == old(layer.outbox)
      ensures parsed.Some? && ReadContent(parsed.value).Ok? && roomGroupName.None? ==>
        r == Raised(AttributeError) && layer.outbox == old(layer.outbox)
      ensures parsed.Some? && ReadContent(parsed.value).Ok? && roomGroupName.Some? ==>
        r == Done &&
        layer.outbox == Delivered(old(layer.outbox), layer.Members(roomGroupName.value), DocumentUpdate(ReadContent(parsed.value).value))
    {
      if parsed.None? {
        return Raised(JSONDecodeError);
      }
      var content := ReadContent(parsed.value);
      if content.Err? {
        return Raised(content.error);
      }
      if roomGroupName.None? {
        return Raised(AttributeError);
      }
      layer.GroupSend(roomGroupName.value, DocumentUpdate(content.value));
      r := Done;
    }
  }

  /**
   * A broadcast reaches every member, the sender included, with exactly the
   * received content, and no one outside the group.
   */
  lemma BroadcastReachesRoom(outbox: map<ChannelName, seq<Json>>, members: set<ChannelName>, sender: ChannelName, content: Json, ch: ChannelName)
    requires sender in members
    ensures SentIn(Delivered(outbox, members, DocumentUpdate(content)), sender) == SentIn(outbox, sender) + [Obj([("content", content)])]
    ensures ch !in members ==> SentIn(Delivered(outbox, members, DocumentUpdate(content)), ch) == SentIn(outbox, ch)
    ensures Get(DocumentUpdate(content), "content") == Some(content)
  {
  }

  /**
   * Two connections to the same document share one room: a frame received
   * on the first reaches both, each as `{content}`, and after the second
   * disconnects only the first is left in the room.
   */
  method TwoEditorsShareARoom(docId: string, content: Json)
    returns (received: Outcome, sentA: seq<Json>, sentB: seq<Json>, left: set<ChannelName>)
    ensures received == Done
    ensures sentA == [Obj([("content", content)])] && sentB == sentA
    ensures left == {"a"}
  {
    var layer := new ChannelLayer();
    var a := new DocumentConsumer("a", layer);
    var b := new DocumentConsumer("b", layer);
    a.Connect(docId);
    b.Connect(docId);
    assert layer.Members(GroupName(docId)) == {"a", "b"};
    received := a.Receive(Some(Obj([("content", content)])));
    sentA, sentB := layer.Sent("a"), layer.Sent("b");
    var r := b.Disconnect();
    left := layer.Members(GroupName(docId));
  }
}
