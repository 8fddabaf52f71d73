/**
 * `create_course_outline`: validate and save the course, then stamp each
 * module of the request with the course's uuid and a running `order`
 * counter, validating and saving the modules one at a time. The first module
 * that fails validation ends the request with 400; the course and the
 * modules saved before it stay in the store (there is no transaction).
 *
 * The course and module serializers' validity checks are parameters; the new
 * course's uuid is a fresh value supplied by the caller.
 */
module CourseViews {
  import opened Wrappers
  import opened Json

  /** The Python exceptions the view can raise; the framework turns them into a 500. */
  datatype PyError = KeyError | TypeError

  datatype Response =
    | Created(body: Json)          // 201 with the course data and its saved modules
    | BadRequest                   // 400 with the serializer's errors
    | Raised(error: PyError)

  /** How the `for` loop ended. */
  datatype Stop =
    | Completed
    | NotADict                     // `module['course_uuid'] = ...` on a non-dict raises TypeError
    | Invalid(rejected: Json)      // the first stamped module the serializer rejected

  /** The module dict after `module['course_uuid'] = uuid` and `module['order'] = order`. */
  function Stamp(item: Json, courseUuid: string, order: nat): Json
    requires item.Obj?
  {
    Obj(Assign(Assign(item.members, "course_uuid", Str(courseUuid)), "order", Num(order)))
  }

  /**
   * A stamped module carries the course's uuid and its order; every other
   * field is the input module's.
   */
  lemma StampSetsFields(item: Json, courseUuid: string, order: nat)
    requires item.Obj?
    ensures var r := Stamp(item, courseUuid, order);
      && Get(r, "course_uuid") == Some(Str(courseUuid))
      && Get(r, "order") == Some(Num(order))
      && forall k :: k != "course_uuid" && k != "order" ==> Get(r, k) == Get(item, k)
  {
    var withUuid := Assign(item.members, "course_uuid", Str(courseUuid));
    LookupAssignSame(withUuid, "order", Num(order));
    LookupAssignOther(withUuid, "order", Num(order), "course_uuid");
    LookupAssignSame(item.members, "course_uuid", Str(courseUuid));
    forall k | k != "course_uuid" && k != "order"
      ensures Lookup(Assign(withUuid, "order", Num(order)), k) == Lookup(item.members, k)
    {
      LookupAssignOther(withUuid, "order", Num(order), k);
      LookupAssignOther(item.members, "course_uuid", Str(courseUuid), k);
    }
  }

  /**
   * What `for module in modules` yields: a list its items, a string its
   * characters, a dict its keys; None when the value is not iterable.
   */
  function Iterate(j: Json): Option<seq<Json>> {
    match j
    case Arr(items) => Some(items)
    case Str(s) => Some(seq(|s|, i requires 0 <= i < |s| => Str([s[i]])))
    case Obj(members) => Some(seq(|members|, i requires 0 <= i < |members| => Str(members[i].0)))
    case _ => None
  }

  /**
   * The loop over `items`, starting with the counter at `order`: the
   * modules it saves, in order, and how it stops.
   */
  function Process(items: seq<Json>, courseUuid: string, valid: Json -> bool, order: nat): (r: (seq<Json>, Stop))
    ensures |r.0| <= |items|
  {
    if items == [] then ([], Completed)
    else if !items[0].Obj? then ([], NotADict)
    else
      var m := Stamp(items[0], courseUuid, order);
      if !valid(m) then ([], Invalid(m))
      else
        var rest := Process(items[1..], courseUuid, valid, order + 1);
        ([m] + rest.0, rest.1)
  }

  /** The module saved at position `i` is input module `i`, stamped with the counter at `order + i`. */
  lemma {:induction false} ProcessAt(items: seq<Json>, courseUuid: string, valid: Json -> bool, order: nat, i: nat)
    requires i < |Process(items, courseUuid, valid, order).0|
    ensures i < |items| && items[i].Obj?
    ensures Process(items, courseUuid, valid, order).0[i] == Stamp(items[i], courseUuid, order + i)
  {
    var rest := Process(items[1..], courseUuid, valid, order + 1).0;
    assert Process(items, courseUuid, valid, order).0 == [Stamp(items[0], courseUuid, order)] + rest;
    if i > 0 {
      ProcessAt(items[1..], courseUuid, valid, order + 1, i - 1);
      assert items[1..][i - 1] == items[i];
    }
  }

  /** Every module the loop saves passed validation. */
  lemma {:induction false} ProcessSavesValid(items: seq<Json>, courseUuid: string, valid: Json -> bool, order: nat)
    ensures forall m :: m in Process(items, courseUuid, valid, order).0 ==> valid(m)
  {
    if items != [] && items[0].Obj? && valid(Stamp(items[0], courseUuid, order)) {
      ProcessSavesValid(items[1..], courseUuid, valid, order + 1);
    }
  }

  /**
   * The loop saves a prefix of the input: each saved module is the stamped
   * input module at the same position, with the counter at `order` plus its
   * index, and it passed validation.
   */
  lemma ProcessSavesValidPrefix(items: seq<Json>, courseUuid: string, valid: Json -> bool, order: nat)
    ensures |Process(items, courseUuid, valid, order).0| <= |items|
    ensures var saved := Process(items, courseUuid, valid, order).0;
      forall i :: 0 <= i < |saved| ==>
        items[i].Obj? && saved[i] == Stamp(items[i], courseUuid, order + i) && valid(saved[i])
  {
    var saved := Process(items, courseUuid, valid, order).0;
    ProcessSavesValid(items, courseUuid, valid, order);
    forall i | 0 <= i < |saved|
      ensures items[i].Obj? && saved[i] == Stamp(items[i], courseUuid, order + i) && valid(saved[i])
    {
      ProcessAt(items, courseUuid, valid, order, i);
    }
  }

  /**
   * The loop completes exactly when every module was saved; otherwise the
   * module after the saved prefix is either not a dict or its stamped form
   * failed validation.
   */
  lemma {:induction false} ProcessStopsAtFirstFailure(items: seq<Json>, courseUuid: string, valid: Json -> bool, order: nat)
    ensures var r := Process(items, courseUuid, valid, order);
      && |r.0| <= |items|
      && (r.1.Completed? <==> |r.0| == |items|)
      && (r.1.NotADict? ==> !items[|r.0|].Obj?)
      && (r.1.Invalid? ==>
            items[|r.0|].Obj? && r.1.rejected == Stamp(items[|r.0|], courseUuid, order + |r.0|)
            && !valid(r.1.rejected))
  {
    if items != [] && items[0].Obj? && valid(Stamp(items[0], courseUuid, order)) {
      ProcessStopsAtFirstFailure(items[1..], courseUuid, valid, order + 1);
      var rest := Process(items[1..], courseUuid, valid, order + 1);
      assert Process(items, courseUuid, valid, order) == ([Stamp(items[0], courseUuid, order)] + rest.0, rest.1);
      if |rest.0| < |items[1..]| {
        assert items[1 + |rest.0|] == items[1..][|rest.0|];
      }
    }
  }

  /**
   * The saved modules carry the course's uuid and the orders 0, 1, 2, ... in
   * input order, with no gap; every other field is the input module's.
   */
  lemma {:induction false} OrdersAreGapFree(items: seq<Json>, courseUuid: string, valid: Json -> bool, i: nat)
    requires i < |Process(items, courseUuid, valid, 0).0|
    ensures var saved := Process(items, courseUuid, valid, 0).0;
      Get(saved[i], "order") == Some(Num(i)) &&
      Get(saved[i], "course_uuid") == Some(Str(courseUuid)) &&
      forall k :: k != "course_uuid" && k != "order" ==> Get(saved[i], k) == Get(items[i], k)
  {
    ProcessAt(items, courseUuid, valid, 0, i);
    var stamped := Stamp(items[i], courseUuid, i);
    assert Process(items, courseUuid, valid, 0).0[i] == stamped;
    StampSetsFields(items[i], courseUuid, i);
  }

  /** Every module a dict that validates once stamped: the loop finishes. */
  lemma {:induction false} ProcessCompletes(items: seq<Json>, courseUuid: string, valid: Json -> bool, order: nat)
    requires forall i :: 0 <= i < |items| ==> items[i].Obj? && valid(Stamp(items[i], courseUuid, order + i))
    ensures Process(items, courseUuid, valid, order).1 == Completed
  {
    if items != [] {
      var tail := items[1..];
      forall i | 0 <= i < |tail|
        ensures tail[i].Obj? && valid(Stamp(tail[i], courseUuid, order + 1 + i))
      {
        assert tail[i] == items[i + 1];
      }
      ProcessCompletes(tail, courseUuid, valid, order + 1);
    }
  }

  /** A loop that finishes saved exactly one module per input module. */
  lemma CompletedSavesEveryModule(items: seq<Json>, courseUuid: string, valid: Json -> bool, order: nat)
    requires forall i :: 0 <= i < |items| ==> items[i].Obj? && valid(Stamp(items[i], courseUuid, order + i))
    ensures Process(items, courseUuid, valid, order).1 == Completed
    ensures Process(items, courseUuid, valid, order).0 ==
      seq(|items|, i requires 0 <= i < |items| => Stamp(items[i], courseUuid, order + i))
  {
    ProcessCompletes(items, courseUuid, valid, order);
    ProcessStopsAtFirstFailure(items, courseUuid, valid, order);
    ProcessSavesValidPrefix(items, courseUuid, valid, order);
  }

  /** One turn of the loop at position `k`. */
  lemma ProcessStep(items: seq<Json>, courseUuid: string, valid: Json -> bool, k: nat)
    requires k < |items|
    ensures Process(items[k..], courseUuid, valid, k) ==
      if !items[k].Obj? then ([], NotADict)
      else if !valid(Stamp(items[k], courseUuid, k)) then ([], Invalid(Stamp(items[k], courseUuid, k)))
      else
        var rest := Process(items[k + 1..], courseUuid, valid, k + 1);
        ([Stamp(items[k], courseUuid, k)] + rest.0, rest.1)
  {
    assert items[k..][0] == items[k] && items[k..][1..] == items[k + 1..];
  }

  /** `module_data`: the representation of each saved module, in the order they were saved. */
  function Representations(saved: seq<Json>, repr: Json -> Json): (r: seq<Json>)
    ensures |r| == |saved|
    ensures forall i :: 0 <= i < |saved| ==> r[i] == repr(saved[i])
  {
    if saved == [] then [] else [repr(saved[0])] + Representations(saved[1..], repr)
  }

  /** The courses and modules the view saves. */
  class CourseStore {
    var courses: seq<(string, seq<(string, Json)>)>   // (uuid, validated course data)
    var modules: seq<Json>                             // saved module records

    function CourseUuids(): set<string>
      reads this
    {
      set i | 0 <= i < |courses| :: courses[i].0
    }

    constructor ()
      ensures courses == [] && modules == []
    {
      courses := [];
      modules := [];
    }

    /**
     * The `for` loop: stamp, validate and save each module in turn, stopping
     * at the first one that is not a dict or fails validation.
     */
    method SaveModules(items: seq<Json>, courseUuid: string, valid: Json -> bool)
      returns (moduleData: seq<Json>, stop: Stop)
      modifies this
      ensures (moduleData, stop) == Process(items, courseUuid, valid, 0)
      ensures modules == old(modules) + moduleData && courses == old(courses)
    {
      moduleData := [];
      var order: nat := 0;
      var k := 0;
      assert items[k..] == items;
      assert moduleData + Process(items, courseUuid, valid, 0).0 == Process(items, courseUuid, valid, 0).0;
      while k < |items|
        invariant 0 <= k <= |items| && order == k && |moduleData| == k
        invariant modules == old(modules) + moduleData && courses == old(courses)
        invariant var rest := Process(items[k..], courseUuid, valid, k);
          Process(items, courseUuid, valid, 0) == (moduleData + rest.0, rest.1)
      {
        var item := items[k];
        ProcessStep(items, courseUuid, valid, k);
        if !item.Obj? {
          assert moduleData + Process(items[k..], courseUuid, valid, k).0 == moduleData;
          return moduleData, NotADict;
        }
        var stamped := Stamp(item, courseUuid, order);
        order := order + 1;
        if !valid(stamped) {
          assert moduleData + Process(items[k..], courseUuid, valid, k).0 == moduleData;
          return moduleData, Invalid(stamped);
        }
        modules := modules + [stamped];
        ghost var rest := Process(items[k + 1..], courseUuid, valid, k + 1).0;
        assert (moduleData + [stamped]) + rest == moduleData + ([stamped] + rest);
        moduleData := moduleData + [stamped];
        k := k + 1;
      }
      assert items[k..] == [];
      assert moduleData + Process(items[k..], courseUuid, valid, k).0 == moduleData;
      stop := Completed;
    }

    /**
     * The view. `data` is the request's JSON object, `courseValid` and
     * `moduleValid` the serializers' verdicts and `freshUuid` the uuid the
     * new course receives. `courseRepr` is `course_serializer.data`, the
     * saved course's representation, and `moduleRepr` is
     * `ModuleSerializer(module_instance).data` for a saved module.
     */
    method CreateCourseOutline(data: seq<(string, Json)>, courseValid: seq<(string, Json)> -> bool,
                               moduleValid: Json -> bool, freshUuid: string,
                               courseRepr: (string, seq<(string, Json)>) -> seq<(string, Json)>,
                               moduleRepr: Json -> Json) returns (resp: Response)
      requires freshUuid !in CourseUuids()
      modifies this
      ensures !courseValid(data) ==> resp == BadRequest && courses == old(courses) && modules == old(modules)
      ensures courseValid(data) ==> courses == old(courses) + [(freshUuid, data)]
      ensures courseValid(data) && Lookup(data, "modules").None? ==>
        resp == Raised(KeyError) && modules == old(modules)
      ensures courseValid(data) && Lookup(data, "modules").Some? && Iterate(Lookup(data, "modules").value).None? ==>
        resp == Raised(TypeError) && modules == old(modules)
      ensures courseValid(data) && Lookup(data, "modules").Some? && Iterate(Lookup(data, "modules").value).Some? ==>
        var run := Process(Iterate(Lookup(data, "modules").value).value, freshUuid, moduleValid, 0);
        && modules == old(modules) + run.0
        && resp == match run.1
             case Completed =>
               Created(Obj(Assign(courseRepr(freshUuid, data), "modules", Arr(Representations(run.0, moduleRepr)))))
             case NotADict => Raised(TypeError)
             case Invalid(_) => BadRequest
    {
      if !courseValid(data) {
        return BadRequest;
      }
      courses := courses + [(freshUuid, data)];
      var field := Lookup(data, "modules");
      if field.None? {
        return Raised(KeyError);
      }
      var iterated := Iterate(field.value);
      if iterated.None? {
        return Raised(TypeError);
      }
      var moduleData, stop := SaveModules(iterated.value, freshUuid, moduleValid);
      match stop
      case NotADict => return Raised(TypeError);
      case Invalid(_) => return BadRequest;
      case Completed =>
        resp := Created(Obj(Assign(courseRepr(freshUuid, data), "modules", Arr(Representations(moduleData, moduleRepr)))));
    }
  }
}
