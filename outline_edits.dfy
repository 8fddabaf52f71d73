/**
 * The course outline as the outline editors hold it, and the
 * copy-and-replace edits both editors make: copy a list, put the new item
 * at one index, and spread the old record into a new one with that list.
 * The edits act on whatever value the editor holds (the outline the server
 * sent, unchecked); on a value that has the outline's shape, each edit is
 * the record update of the same field, as the lemmas at the end show.
 */
module OutlineEdits {
  import opened Wrappers
  import opened Json
  import opened JsValues

  datatype Feature = Video | Image | Interactive

  /** A module of an outline: the fields of the course model plus its uuid. */
  datatype Module = Module(uuid: string, name: string, duration: string, subtopics: seq<string>, features: seq<Feature>)

  datatype Outline = Outline(
    uuid: string, title: string, objectives: seq<string>, duration: string, summary: string, modules: seq<Module>)

  /** The string each feature is stored and sent as. */
  function FeatureValue(f: Feature): (s: string)
    ensures s in {"video", "image", "interactive"}
  {
    match f
    case Video => "video"
    case Image => "image"
    case Interactive => "interactive"
  }

  /** Different features are sent as different strings. */
  lemma FeatureValueInjective(f: Feature, g: Feature)
    ensures FeatureValue(f) == FeatureValue(g) ==> f == g
  {
  }

  function StrItems(ss: seq<string>): (r: seq<Json>)
    ensures |r| == |ss| && forall i :: 0 <= i < |ss| ==> r[i] == Str(ss[i])
  {
    seq(|ss|, i requires 0 <= i < |ss| => Str(ss[i]))
  }

  function ModuleJson(m: Module): Json {
    Obj([
      ("uuid", Str(m.uuid)),
      ("name", Str(m.name)),
      ("duration", Str(m.duration)),
      ("subtopics", Arr(StrItems(m.subtopics))),
      ("features", Arr(seq(|m.features|, i requires 0 <= i < |m.features| => Str(FeatureValue(m.features[i])))))
    ])
  }

  function ModulesJson(ms: seq<Module>): (r: seq<Json>)
    ensures |r| == |ms| && forall i :: 0 <= i < |ms| ==> r[i] == ModuleJson(ms[i])
  {
    seq(|ms|, i requires 0 <= i < |ms| => ModuleJson(ms[i]))
  }

  /** The outline as JSON, in the field order of the outline interface. */
  function OutlineJson(o: Outline): Json {
    Obj([
      ("uuid", Str(o.uuid)),
      ("title", Str(o.title)),
      ("objectives", Arr(StrItems(o.objectives))),
      ("duration", Str(o.duration)),
      ("summary", Str(o.summary)),
      ("modules", Arr(ModulesJson(o.modules)))
    ])
  }

  /** `v` is an object whose `key` member is an array with an item at index `i`. */
  predicate ArrayFieldAt(v: JsValue, key: string, i: int) {
    && v.Defined? && v.json.Obj?
    && Lookup(v.json.members, key).Some? && Lookup(v.json.members, key).value.Arr?
    && 0 <= i < |Lookup(v.json.members, key).value.items|
  }

  /** `const copy = [...v.key]; copy[i] = x; return {...v, key: copy}`. */
  function ReplaceItem(v: JsValue, key: string, i: int, x: Json): Json
    requires ArrayFieldAt(v, key, i)
  {
    var items := Lookup(v.json.members, key).value.items;
    SpreadWith(v, key, Arr(items[i := x]))
  }

  /**
   * The copy-and-replace edit keeps the list's length and every other item,
   * puts `x` at index `i`, and keeps every other member of `v`.
   */
  lemma ReplaceItemChangesOneItem(v: JsValue, key: string, i: int, x: Json)
    requires ArrayFieldAt(v, key, i)
    ensures var r := ReplaceItem(v, key, i, x);
      r.Obj? && Lookup(r.members, key).Some? && Lookup(r.members, key).value.Arr?
    ensures var old_ := Lookup(v.json.members, key).value.items;
      var new_ := Lookup(ReplaceItem(v, key, i, x).members, key).value.items;
      |new_| == |old_| && new_[i] == x && forall j :: 0 <= j < |old_| && j != i ==> new_[j] == old_[j]
    ensures forall k :: k != key ==> Lookup(ReplaceItem(v, key, i, x).members, k) == Lookup(v.json.members, k)
  {
    var items := Lookup(v.json.members, key).value.items;
    SpreadWithSets(v, key, Arr(items[i := x]));
  }

  /** `handleSubtopicChange(index, text)`: the module with subtopic `index` replaced. */
  function SubtopicEdit(item: Json, index: int, text: string): Json
    requires ArrayFieldAt(Defined(item), "subtopics", index)
  {
    ReplaceItem(Defined(item), "subtopics", index, Str(text))
  }

  /** The module title edit: `{...module, name: text}`. */
  function NameEdit(item: Json, text: string): Json {
    SpreadWith(Defined(item), "name", Str(text))
  }

  /** `d[key] = v` on a key already present at position `i` replaces that pair in place. */
  lemma {:induction false} AssignAtExisting(members: seq<(string, Json)>, key: string, v: Json, i: int)
    requires 0 <= i < |members| && members[i].0 == key
    requires forall j :: 0 <= j < i ==> members[j].0 != key
    ensures Assign(members, key, v) == members[i := (key, v)]
  {
    if i > 0 {
      AssignAtExisting(members[1..], key, v, i - 1);
      assert [members[0]] + members[1..][i - 1 := (key, v)] == members[i := (key, v)];
    }
  }

  /** `d[key]` finds the first pair with that key. */
  lemma {:induction false} LookupFirst(members: seq<(string, Json)>, key: string, i: int)
    requires 0 <= i < |members| && members[i].0 == key
    requires forall j :: 0 <= j < i ==> members[j].0 != key
    ensures Lookup(members, key) == Some(members[i].1)
  {
    if i > 0 {
      LookupFirst(members[1..], key, i - 1);
    }
  }

  /** The copy-and-replace edit on an object is `d[key] = copy` on its member list. */
  lemma ReplaceItemObject(m: seq<(string, Json)>, key: string, i: int, x: Json)
    requires ArrayFieldAt(Defined(Obj(m)), key, i)
    ensures ReplaceItem(Defined(Obj(m)), key, i, x) == Obj(Assign(m, key, Arr(Lookup(m, key).value.items[i := x])))
  {
    SpreadObject(m, key, Arr(Lookup(m, key).value.items[i := x]));
  }

  lemma StrItemsUpdate(ss: seq<string>, i: int, t: string)
    requires 0 <= i < |ss|
    ensures StrItems(ss)[i := Str(t)] == StrItems(ss[i := t])
  {
  }

  lemma ModulesJsonUpdate(ms: seq<Module>, i: int, m: Module)
    requires 0 <= i < |ms|
    ensures ModulesJson(ms)[i := ModuleJson(m)] == ModulesJson(ms[i := m])
  {
  }

  /** Replacing item `i` of the array under `key`, the member at position `p`, rewrites that one member. */
  lemma ReplaceItemAt(members: seq<(string, Json)>, key: string, p: int, i: int, x: Json)
    requires 0 <= p < |members| && members[p].0 == key && members[p].1.Arr?
    requires forall j :: 0 <= j < p ==> members[j].0 != key
    requires 0 <= i < |members[p].1.items|
    ensures ArrayFieldAt(Defined(Obj(members)), key, i)
    ensures ReplaceItem(Defined(Obj(members)), key, i, x) == Obj(members[p := (key, Arr(members[p].1.items[i := x]))])
  {
    LookupFirst(members, key, p);
    ReplaceItemObject(members, key, i, x);
    AssignAtExisting(members, key, Arr(members[p].1.items[i := x]), p);
  }

  /** On a module, the subtopic edit is the record update of that subtopic. */
  lemma SubtopicEditOnModule(m: Module, index: int, text: string)
    requires 0 <= index < |m.subtopics|
    ensures ArrayFieldAt(Defined(ModuleJson(m)), "subtopics", index)
    ensures SubtopicEdit(ModuleJson(m), index, text) == ModuleJson(m.(subtopics := m.subtopics[index := text]))
  {
    var members := ModuleJson(m).members;
    var edited := Arr(StrItems(m.subtopics)[index := Str(text)]);
    ReplaceItemAt(members, "subtopics", 3, index, Str(text));
    StrItemsUpdate(m.subtopics, index, text);
    assert members[3 := ("subtopics", edited)] == ModuleJson(m.(subtopics := m.subtopics[index := text])).members;
  }

  /** On a module, the title edit is the record update of its name. */
  lemma NameEditOnModule(m: Module, text: string)
    ensures NameEdit(ModuleJson(m), text) == ModuleJson(m.(name := text))
  {
    var members := ModuleJson(m).members;
    SpreadObject(members, "name", Str(text));
    AssignAtExisting(members, "name", Str(text), 1);
    assert members[1 := ("name", Str(text))] == ModuleJson(m.(name := text)).members;
  }

  /** On an outline, replacing module `i` is the record update of that module. */
  lemma ModuleEditOnOutline(o: Outline, i: int, m: Module)
    requires 0 <= i < |o.modules|
    ensures ArrayFieldAt(Defined(OutlineJson(o)), "modules", i)
    ensures ReplaceItem(Defined(OutlineJson(o)), "modules", i, ModuleJson(m)) == OutlineJson(o.(modules := o.modules[i := m]))
  {
    var members := OutlineJson(o).members;
    var edited := Arr(ModulesJson(o.modules)[i := ModuleJson(m)]);
    ReplaceItemAt(members, "modules", 5, i, ModuleJson(m));
    ModulesJsonUpdate(o.modules, i, m);
    assert members[5 := ("modules", edited)] == OutlineJson(o.(modules := o.modules[i := m])).members;
  }

  /** On an outline, replacing objective `i` is the record update of that objective. */
  lemma ObjectiveEditOnOutline(o: Outline, i: int, text: string)
    requires 0 <= i < |o.objectives|
    ensures ArrayFieldAt(Defined(OutlineJson(o)), "objectives", i)
    ensures ReplaceItem(Defined(OutlineJson(o)), "objectives", i, Str(text)) == OutlineJson(o.(objectives := o.objectives[i := text]))
  {
    var members := OutlineJson(o).members;
    var edited := Arr(StrItems(o.objectives)[i := Str(text)]);
    ReplaceItemAt(members, "objectives", 2, i, Str(text));
    StrItemsUpdate(o.objectives, i, text);
    assert members[2 := ("objectives", edited)] == OutlineJson(o.(objectives := o.objectives[i := text])).members;
  }

  /** On an outline, the title edit is the record update of the title. */
  lemma TitleEditOnOutline(o: Outline, text: string)
    ensures SpreadWith(Defined(OutlineJson(o)), "title", Str(text)) == OutlineJson(o.(title := text))
  {
    var members := OutlineJson(o).members;
    SpreadObject(members, "title", Str(text));
    AssignAtExisting(members, "title", Str(text), 1);
    assert members[1 := ("title", Str(text))] == OutlineJson(o.(title := text)).members;
  }

  /** On an outline, the summary edit is the record update of the summary. */
  lemma SummaryEditOnOutline(o: Outline, text: string)
    ensures SpreadWith(Defined(OutlineJson(o)), "summary", Str(text)) == OutlineJson(o.(summary := text))
  {
    var members := OutlineJson(o).members;
    SpreadObject(members, "summary", Str(text));
    AssignAtExisting(members, "summary", Str(text), 4);
    assert members[4 := ("summary", Str(text))] == OutlineJson(o.(summary := text)).members;
  }

  /** The `script` member of a frame; `JSON.stringify` drops a member whose value is `undefined`. */
  function ScriptEntry(x: JsValue): seq<(string, Json)> {
    if x.Defined? then [("script", x.json)] else []
  }

  /** The change frame `{"data": {"script": x}}` the update flush sends. */
  function UpdateFrame(x: JsValue): Json {
    Obj([("data", Obj(ScriptEntry(x)))])
  }

  /** The frame `{"action": "save", "data": {"script": x}}` the save flush sends. */
  function SaveFrame(x: JsValue): Json {
    Obj([("action", Str("save")), ("data", Obj(ScriptEntry(x)))])
  }

  /**
   * Both frames carry the outline where the editors themselves read an
   * incoming one, at `data.script`, and only the save frame names an action.
   */
  lemma FramesCarryScript(x: JsValue)
    ensures Path(Defined(UpdateFrame(x)), ["data", "script"]) == Got(x)
    ensures Path(Defined(SaveFrame(x)), ["data", "script"]) == Got(x)
    ensures Member(Defined(SaveFrame(x)), "action") == Got(Defined(Str("save")))
    ensures Member(Defined(UpdateFrame(x)), "action") == Got(Undefined)
  {
    assert ["data", "script"][1..] == ["script"];
    assert ["script"][1..] == [];
    assert Member(Defined(UpdateFrame(x)), "data") == Got(Defined(Obj(ScriptEntry(x))));
    assert Member(Defined(SaveFrame(x)), "data") == Got(Defined(Obj(ScriptEntry(x))));
    assert Member(Defined(Obj(ScriptEntry(x))), "script") == Got(x);
    assert Path(Defined(Obj(ScriptEntry(x))), ["script"]) == Path(x, []);
  }
}
