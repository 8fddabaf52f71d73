/**
 * The page viewer: it shows every incoming page with no typing gate, sends
 * `back` and `next` through the debounced action sender, and disables the
 * arrows with strict comparisons on the page metadata. The course is
 * complete the first time the combined progress reaches 100 from below,
 * and confetti is fired once.
 */
module PageViewer {
  import opened Wrappers
  import opened Json
  import opened JsValues
  import opened PageSocket

  /** `metaData?.current_order === 1`: the left arrow is disabled. */
  predicate PrevDisabled(meta: JsValue) {
    StrictEquals(OptionalMember(meta, "current_order"), Defined(Num(1)))
  }

  /**
   * `metaData?.current_order === metaData?.total || scrollProgress < 100`:
   * the right arrow is disabled.
   */
  predicate NextDisabled(meta: JsValue, scrollProgress: int) {
    StrictEquals(OptionalMember(meta, "current_order"), OptionalMember(meta, "total")) || scrollProgress < 100
  }

  /**
   * On metadata that carries numeric `current_order` and `total`, the left
   * arrow is disabled exactly on page 1 and the right arrow exactly on the
   * last page or before the page is read to the end.
   */
  lemma ArrowsOnNumericMeta(meta: Json, order: int, total: int, scrollProgress: int)
    requires meta.Obj? && Lookup(meta.members, "current_order") == Some(Num(order))
    requires Lookup(meta.members, "total") == Some(Num(total))
    ensures PrevDisabled(Defined(meta)) <==> order == 1
    ensures NextDisabled(Defined(meta), scrollProgress) <==> order == total || scrollProgress < 100
  {
  }

  /** The left arrow is disabled only by a `current_order` member that is the number 1. */
  lemma PrevDisabledIff(meta: JsValue)
    ensures PrevDisabled(meta) <==> meta.Defined? && Get(meta.json, "current_order") == Some(Num(1))
  {
  }

  /**
   * Before any metadata arrives (`null`), or when it lacks both fields,
   * `undefined === undefined` keeps the right arrow disabled while the left
   * one is enabled.
   */
  lemma ArrowsWithoutMeta(meta: JsValue, scrollProgress: int)
    requires meta == Defined(Null) || (meta.Defined? && meta.json.Obj? &&
      Lookup(meta.json.members, "current_order").None? && Lookup(meta.json.members, "total").None?)
    ensures NextDisabled(meta, scrollProgress)
    ensures !PrevDisabled(meta)
  {
  }

  /** Metadata whose order fields are objects never matches: `===` compares identity. */
  lemma ObjectOrdersNeverMatch(order: Json, scrollProgress: int)
    requires order.Obj?
    ensures !NextDisabled(Defined(Obj([("current_order", order), ("total", order)])), scrollProgress) <==> scrollProgress >= 100
  {
  }

  /** The page display and navigation of the viewer. */
  class Viewer {
    /** `content`, initially "No data."; a frame without content makes it `undefined`. */
    var content: JsValue
    /** `metaData`, initially `null`. */
    var meta: JsValue
    /** `scrollProgress`, the rounded scroll percentage of the page. */
    var scrollProgress: int
    /** The argument of the pending debounced action, if one is pending. */
    var pendingAction: Option<string>
    /** The frames sent on the document socket. */
    var sent: seq<Json>

    constructor ()
      ensures content == Defined(Str("No data.")) && meta == Defined(Null) && scrollProgress == 0
      ensures pendingAction == None && sent == []
    {
      content := Defined(Str("No data."));
      meta := Defined(Null);
      scrollProgress := 0;
      pendingAction := None;
      sent := [];
    }

    /** `onmessage`: every readable frame replaces content and metadata; there is no typing gate. */
    method OnMessage(msg: Option<Json>)
      modifies this
      ensures msg.Some? && ReadPage(msg.value).Some? ==>
        content == ReadPage(msg.value).value.0 && meta == ReadPage(msg.value).value.1
      ensures msg.None? || ReadPage(msg.value).None? ==> content == old(content) && meta == old(meta)
      ensures scrollProgress == old(scrollProgress) && pendingAction == old(pendingAction) && sent == old(sent)
    {
      if msg.Some? {
        match ReadPage(msg.value)
        case None =>
        case Some(page) =>
          content := page.0;
          meta := page.1;
      }
    }

    /** `handleScroll`: the new rounded percentage. */
    method Scroll(percent: int)
      modifies this
      ensures scrollProgress == percent
      ensures content == old(content) && meta == old(meta) && pendingAction == old(pendingAction) && sent == old(sent)
    {
      scrollProgress := percent;
    }

    /** The left arrow: a disabled button ignores the click; otherwise `back` is queued. */
    method PressPrev()
      modifies this
      ensures !PrevDisabled(meta) ==> pendingAction == Some(ActionName(Prev))
      ensures PrevDisabled(meta) ==> pendingAction == old(pendingAction)
      ensures content == old(content) && meta == old(meta) && scrollProgress == old(scrollProgress) && sent == old(sent)
    {
      if !PrevDisabled(meta) {
        pendingAction := Some(ActionName(Prev));
      }
    }

    /** The right arrow: a disabled button ignores the click; otherwise `next` is queued. */
    method PressNext()
      modifies this
      ensures !NextDisabled(meta, scrollProgress) ==> pendingAction == Some(ActionName(Next))
      ensures NextDisabled(meta, scrollProgress) ==> pendingAction == old(pendingAction)
      ensures content == old(content) && meta == old(meta) && scrollProgress == old(scrollProgress) && sent == old(sent)
    {
      if !NextDisabled(meta, scrollProgress) {
        pendingAction := Some(ActionName(Next));
      }
    }

    /** The debounced action fires: `{action}` goes out only if the socket is open. */
    method FlushAction(open: bool)
      modifies this
      ensures pendingAction == None
      ensures old(pendingAction).Some? && open ==> sent == old(sent) + [ActionFrame(old(pendingAction).value)]
      ensures old(pendingAction).None? || !open ==> sent == old(sent)
      ensures content == old(content) && meta == old(meta) && scrollProgress == old(scrollProgress)
    {
      if pendingAction.Some? {
        if open {
          sent := sent + [ActionFrame(pendingAction.value)];
        }
        pendingAction := None;
      }
    }
  }

  /**
   * On the last page, read to the end, the right arrow does nothing while
   * the left one still queues `back`.
   */
  method LastPageNavigation(total: int)
    requires total > 1
  {
    var v := new Viewer();
    var meta := Obj([("current_order", Num(total)), ("total", Num(total))]);
    var msg := Obj([("data", Obj([("content", Str("page"))])), ("meta", meta)]);
    ReadPageFrames("page", Str("page"), meta);
    v.OnMessage(Some(msg));
    v.Scroll(100);
    ArrowsOnNumericMeta(meta, total, total, 100);
    v.PressNext();
    assert v.pendingAction == None;
    v.PressPrev();
    v.FlushAction(true);
    assert v.sent == [ActionFrame("back")];
  }

  /**
   * Whether a run of progress values, starting after `prev`, ever goes from
   * below 100 to 100 or more.
   */
  ghost predicate Crosses(prev: real, ps: seq<real>)
    decreases |ps|
  {
    |ps| > 0 && ((ps[0] >= 100.0 && prev < 100.0) || Crosses(ps[0], ps[1..]))
  }

  /**
   * Starting below 100, the run crosses 100 exactly when some value in it
   * reaches 100: the first such value follows one below 100.
   */
  lemma {:induction false} CrossesIffReaches(prev: real, ps: seq<real>)
    requires prev < 100.0
    ensures Crosses(prev, ps) <==> exists i :: 0 <= i < |ps| && ps[i] >= 100.0
    decreases |ps|
  {
    if ps != [] && ps[0] < 100.0 {
      CrossesIffReaches(ps[0], ps[1..]);
      if exists i :: 0 <= i < |ps| && ps[i] >= 100.0 {
        var i :| 0 <= i < |ps| && ps[i] >= 100.0;
        assert ps[1..][i - 1] == ps[i];
      }
      if exists j :: 0 <= j < |ps[1..]| && ps[1..][j] >= 100.0 {
        var j :| 0 <= j < |ps[1..]| && ps[1..][j] >= 100.0;
        assert ps[j + 1] >= 100.0;
      }
    }
  }

  /**
   * The completion latches: `prevProgress`, `hasCompleted`,
   * `showCelebratoryButton`, `hasFiredConfetti`, the completion dialog and
   * the number of times confetti was fired, fed the combined progress each
   * time it is recomputed.
   */
  class CompletionTracker {
    var prevProgress: real
    var hasCompleted: bool
    var showCelebratoryButton: bool
    var showCompletionDialog: bool
    var compactButton: bool
    var hasFiredConfetti: bool
    var confettiFired: nat
    /** Every progress value observed so far. */
    ghost var readings: seq<real>

    /**
     * Completion is the first crossing of 100 from the initial 0, never
     * undone; confetti has fired exactly once once the course is complete
     * and never before; the celebratory button shows only after completion.
     */
    ghost predicate Valid()
      reads this
    {
      && hasCompleted == Crosses(0.0, readings)
      && hasFiredConfetti == hasCompleted
      && confettiFired == (if hasCompleted then 1 else 0)
      && (showCelebratoryButton ==> hasCompleted)
      && prevProgress == (if readings == [] then 0.0 else readings[|readings| - 1])
    }

    constructor ()
      ensures Valid() && readings == [] && !hasCompleted && confettiFired == 0
      ensures !showCelebratoryButton && !showCompletionDialog && !compactButton
    {
      prevProgress := 0.0;
      hasCompleted := false;
      showCelebratoryButton := false;
      showCompletionDialog := false;
      compactButton := false;
      hasFiredConfetti := false;
      confettiFired := 0;
      readings := [];
    }

    /**
     * The completion effect on a new progress value, then the confetti
     * effect, which runs only when `hasCompleted` has just changed.
     */
    method Observe(progress: real)
      requires Valid()
      modifies this
      ensures Valid()
      ensures readings == old(readings) + [progress]
      ensures progress >= 100.0 && old(prevProgress) < 100.0 ==> showCelebratoryButton
      ensures !(progress >= 100.0 && old(prevProgress) < 100.0) ==> showCelebratoryButton == old(showCelebratoryButton)
      ensures old(hasCompleted) ==> hasCompleted && confettiFired == old(confettiFired)
      ensures showCompletionDialog == old(showCompletionDialog) && compactButton == old(compactButton)
    {
      CrossesAppend(0.0, readings, progress);
      if progress >= 100.0 && prevProgress < 100.0 {
        var changed := !hasCompleted;
        hasCompleted := true;
        showCelebratoryButton := true;
        if changed && !hasFiredConfetti {
          confettiFired := confettiFired + 1;
          hasFiredConfetti := true;
        }
      }
      prevProgress := progress;
      readings := readings + [progress];
    }

    /** `handleCompletionClick`. */
    method OpenDialog()
      requires Valid()
      modifies this
      ensures Valid() && showCompletionDialog
      ensures readings == old(readings) && hasCompleted == old(hasCompleted) && confettiFired == old(confettiFired)
      ensures showCelebratoryButton == old(showCelebratoryButton) && compactButton == old(compactButton)
    {
      showCompletionDialog := true;
    }

    /** `handleContinueReading`: the compact button replaces the celebratory one and the dialog closes. */
    method ContinueReading()
      requires Valid()
      modifies this
      ensures Valid() && compactButton && !showCelebratoryButton && !showCompletionDialog
      ensures readings == old(readings) && hasCompleted == old(hasCompleted) && confettiFired == old(confettiFired)
    {
      compactButton := true;
      showCelebratoryButton := false;
      showCompletionDialog := false;
    }
  }

  /** Appending one value: a crossing so far, or one at the new value from the last. */
  lemma {:induction false} CrossesAppend(prev: real, ps: seq<real>, p: real)
    ensures Crosses(prev, ps + [p]) <==>
      Crosses(prev, ps) || (p >= 100.0 && (if ps == [] then prev else ps[|ps| - 1]) < 100.0)
    decreases |ps|
  {
    if ps != [] {
      assert (ps + [p])[1..] == ps[1..] + [p];
      CrossesAppend(ps[0], ps[1..], p);
    } else {
      assert [p][1..] == [];
    }
  }

  /**
   * The completion flag, read after any run of progress values, says
   * whether one of them reached 100; confetti has then fired once, and
   * never otherwise.
   */
  lemma CompletionMeansReached(t: CompletionTracker)
    requires t.Valid()
    ensures t.hasCompleted <==> exists i :: 0 <= i < |t.readings| && t.readings[i] >= 100.0
    ensures t.confettiFired <= 1
  {
    CrossesIffReaches(0.0, t.readings);
  }

  /**
   * Scrolling back below 100 and reaching it again shows the celebratory
   * button again after Continue Reading hid it, but fires no more confetti.
   */
  method ReachAgain()
  {
    var t := new CompletionTracker();
    t.Observe(100.0);
    assert t.hasCompleted && t.confettiFired == 1;
    t.ContinueReading();
    t.Observe(50.0);
    t.Observe(100.0);
    assert t.showCelebratoryButton && t.compactButton && t.confettiFired == 1;
  }
}
