/**
 * The state of `OverlayService` and what each of its operations does to it,
 * as functions on values. The class in module `OverlayService` is proved to
 * follow these functions step by step; the lemmas here state what the
 * controller promises across commands.
 */
module OverlayModel {
  import opened Wrappers
  import opened JavaLang
  import Gravity
  import TextColor

  /** The overlaid `TextView`: whether it is added to the window, its layout gravity, text colour and text. */
  datatype TextView = TextView(attached: bool, gravity: Option<bv32>, textColor: Option<int>, text: string)

  /** `new TextView(this)`: not yet added, no layout parameters, the theme's colour, no text. */
  const NEW_TEXT_VIEW := TextView(false, None, None, "")

  /**
   * The fields of the service: the `isRunning` flag, `displayText` (`None` for
   * null) and whether `backgroundThread` is set.
   */
  datatype ServiceState = ServiceState(isRunning: bool, displayText: Option<TextView>, hasBackgroundThread: bool)

  /** The fields as the Java initialisers leave them. */
  const INITIAL := ServiceState(false, None, false)

  /** A start command's extras: each of `enabled`, `location` and `color` may be absent. */
  datatype Bundle = Bundle(enabled: Option<string>, location: Option<string>, color: Option<string>)

  /**
   * What the shared preferences hold when monitoring starts: the location as the
   * store returns it (its default applied) and the colour, if one is stored.
   */
  datatype Prefs = Prefs(location: string, color: Option<string>)

  /** The colour `startMonitoring` reads, `"#fff"` when none is stored. */
  function StoredColor(prefs: Prefs): string {
    prefs.color.GetOr(TextColor.DEFAULT_COLOR)
  }

  /** Whether a command ran to its end or `Integer.parseInt` threw out of it. */
  datatype Outcome = Completed | NumberFormatException

  datatype Step = Step(state: ServiceState, outcome: Outcome)

  /**
   * What every reachable state satisfies: the flag is set exactly while a
   * background thread is recorded, and then the display exists and is on screen.
   */
  predicate Consistent(s: ServiceState) {
    s.isRunning == s.hasBackgroundThread
    && (s.isRunning ==> s.displayText.Some? && s.displayText.value.attached)
  }

  /** `isRunning()`: the flag is set and a display exists. */
  predicate Running(s: ServiceState)
    ensures Running(s) ==> s.displayText.Some?
    ensures Consistent(s) ==> (Running(s) <==> s.isRunning)
  {
    s.isRunning && s.displayText.Some?
  }

  /**
   * `startMonitoring()`: a new view, gravity from the stored location, colour
   * from the stored colour, then the flag and the thread. If the location does
   * not parse, the new view exists but nothing after it happened.
   */
  function Started(s: ServiceState, prefs: Prefs, parseColor: string -> Option<int>): (r: Step)
    ensures r.outcome == Completed <==> Gravity.GravityFor(prefs.location).Some?
    ensures r.state.displayText.Some? && r.state.displayText.value.text == ""
    ensures r.outcome == Completed ==>
      Running(r.state) && r.state.hasBackgroundThread && r.state.displayText.value.attached
      && r.state.displayText.value.gravity == Gravity.GravityFor(prefs.location)
      && r.state.displayText.value.textColor == Some(TextColor.ColorValue(parseColor, StoredColor(prefs)))
    ensures r.outcome == NumberFormatException ==> r.state == s.(displayText := Some(NEW_TEXT_VIEW))
  {
    match Gravity.GravityFor(prefs.location)
    case None => Step(s.(displayText := Some(NEW_TEXT_VIEW)), NumberFormatException)
    case Some(g) =>
      var view := TextView(true, Some(g), Some(TextColor.ColorValue(parseColor, StoredColor(prefs))), "");
      Step(ServiceState(true, Some(view), true), Completed)
  }

  function Detached(v: Option<TextView>): Option<TextView> {
    match v
    case None => None
    case Some(t) => Some(t.(attached := false))
  }

  /** `stopMonitoring()`: clears the flag and the thread and removes the view, which stays referenced. */
  function Stopped(s: ServiceState): (r: ServiceState)
    ensures !Running(r) && !r.isRunning && !r.hasBackgroundThread
    ensures r.displayText.Some? <==> s.displayText.Some?
    ensures s.displayText.Some? ==> r.displayText.value == s.displayText.value.(attached := false)
  {
    ServiceState(false, Detached(s.displayText), false)
  }

  /** `onDestroy()`: clears the flag and the thread, removes the view and drops it. */
  function Destroyed(s: ServiceState): (r: ServiceState)
    ensures !Running(r) && r.displayText.None? && !r.hasBackgroundThread
  {
    ServiceState(false, None, false)
  }

  /** `updateLocation(value)`: new gravity for the view, or the escaping parse failure with nothing changed. */
  function Located(s: ServiceState, location: string): (r: Step)
    ensures r.outcome == NumberFormatException <==> Gravity.GravityFor(location).None?
    ensures r.outcome == NumberFormatException ==> r.state == s
    ensures r.state.isRunning == s.isRunning && r.state.hasBackgroundThread == s.hasBackgroundThread
    ensures r.outcome == Completed && s.displayText.Some? ==>
      r.state.displayText == Some(s.displayText.value.(gravity := Gravity.GravityFor(location)))
  {
    match Gravity.GravityFor(location)
    case None => Step(s, NumberFormatException)
    case Some(g) =>
      match s.displayText
      case None => Step(s, Completed)
      case Some(t) => Step(s.(displayText := Some(t.(gravity := Some(g)))), Completed)
  }

  /** `updateColor(color)`: nothing without a display, else the normalised, parsed-or-0 colour. */
  function Colored(s: ServiceState, color: string, parseColor: string -> Option<int>): (r: ServiceState)
    ensures r.isRunning == s.isRunning && r.hasBackgroundThread == s.hasBackgroundThread
    ensures s.displayText.None? ==> r == s
    ensures s.displayText.Some? ==>
      r.displayText == Some(s.displayText.value.(textColor := Some(TextColor.ColorValue(parseColor, color))))
  {
    match s.displayText
    case None => s
    case Some(t) => s.(displayText := Some(t.(textColor := Some(TextColor.ColorValue(parseColor, color)))))
  }

  /** The `enabled` part of `processBundle`. */
  function Enabled(s: ServiceState, enabled: Option<string>, prefs: Prefs, parseColor: string -> Option<int>): (r: Step)
    ensures Consistent(s) ==> Consistent(r.state)
    ensures r.outcome == NumberFormatException ==> enabled.Some? && EqualsIgnoreCase(enabled.value, "true") && !Running(s)
    ensures Consistent(s) && r.outcome == NumberFormatException ==> !Running(r.state)
    ensures r.outcome == Completed ==> (Running(r.state) ==
      if enabled.Some? && EqualsIgnoreCase(enabled.value, "true") then true
      else if enabled.Some? && EqualsIgnoreCase(enabled.value, "false") then false
      else Running(s))
  {
    match enabled
    case None => Step(s, Completed)
    case Some(e) =>
      if EqualsIgnoreCase(e, "true") && !Running(s) then Started(s, prefs, parseColor)
      else if EqualsIgnoreCase(e, "false") && Running(s) then Step(Stopped(s), Completed)
      else Step(s, Completed)
  }

  /** `processBundle(bundle)`: enabled first, then location and colour, each only while running. */
  function Processed(s: ServiceState, b: Bundle, prefs: Prefs, parseColor: string -> Option<int>): (r: Step)
    ensures Consistent(s) ==> Consistent(r.state)
    ensures r.outcome == NumberFormatException ==> b.enabled.Some? || b.location.Some?
    ensures r.outcome == Completed ==> Running(r.state) == Running(Enabled(s, b.enabled, prefs, parseColor).state)
  {
    var afterEnabled := Enabled(s, b.enabled, prefs, parseColor);
    if afterEnabled.outcome == NumberFormatException then afterEnabled
    else
      var s1 := afterEnabled.state;
      var afterLocation := if b.location.Some? && Running(s1) then Located(s1, b.location.value) else Step(s1, Completed);
      if afterLocation.outcome == NumberFormatException then afterLocation
      else
        var s2 := afterLocation.state;
        Step(if b.color.Some? && Running(s2) then Colored(s2, b.color.value, parseColor) else s2, Completed)
  }

  /** The handler: a sample replaces the text only while the flag is set. */
  function Delivered(s: ServiceState, text: string): (r: ServiceState)
    requires Consistent(s)
    ensures Consistent(r)
    ensures r.isRunning == s.isRunning && r.hasBackgroundThread == s.hasBackgroundThread
    ensures !s.isRunning ==> r == s
    ensures s.isRunning ==> r.displayText.value.text == text
  {
    if s.isRunning then s.(displayText := Some(s.displayText.value.(text := text))) else s
  }

  // ---------------------------------------------------------------------------
  // Invariant

  lemma InitialConsistent()
    ensures Consistent(INITIAL) && !Running(INITIAL)
  {
  }

  /** Every command keeps the state consistent, whether it completes or throws. */
  lemma ProcessedConsistent(s: ServiceState, b: Bundle, prefs: Prefs, parseColor: string -> Option<int>)
    requires Consistent(s)
    ensures Consistent(Processed(s, b, prefs, parseColor).state)
  {
  }

  lemma DeliveredConsistent(s: ServiceState, text: string)
    requires Consistent(s)
    ensures Consistent(Delivered(s, text))
  {
  }

  lemma DestroyedConsistent(s: ServiceState)
    ensures Consistent(Destroyed(s)) && Destroyed(s) == INITIAL
  {
  }

  /** In a consistent state `isRunning()` is the flag itself. */
  lemma RunningIsFlag(s: ServiceState)
    requires Consistent(s)
    ensures Running(s) <==> s.isRunning
  {
  }

  // ---------------------------------------------------------------------------
  // The enabled field

  /** "true" in any case, while not running, starts monitoring with the stored location and colour. */
  lemma EnableStarts(s: ServiceState, e: string, prefs: Prefs, parseColor: string -> Option<int>)
    requires Consistent(s) && !Running(s) && EqualsIgnoreCase(e, "true")
    ensures var r := Processed(s, Bundle(Some(e), None, None), prefs, parseColor);
      match Gravity.GravityFor(prefs.location)
      case Some(g) =>
        r.outcome == Completed && Running(r.state) && r.state.hasBackgroundThread
        && r.state.displayText == Some(TextView(true, Some(g), Some(TextColor.ColorValue(parseColor, StoredColor(prefs))), ""))
      case None =>
        r.outcome == NumberFormatException && !Running(r.state) && !r.state.hasBackgroundThread
        && r.state.displayText == Some(NEW_TEXT_VIEW)
  {
  }

  /** With nothing stored, the view starts with the colour "#fff" parses to, or 0. */
  lemma EnableStartsWithDefaultColor(s: ServiceState, e: string, location: string, parseColor: string -> Option<int>)
    requires Consistent(s) && !Running(s) && EqualsIgnoreCase(e, "true") && Gravity.GravityFor(location).Some?
    ensures var r := Processed(s, Bundle(Some(e), None, None), Prefs(location, None), parseColor);
      r.state.displayText.Some?
      && r.state.displayText.value.textColor == Some(parseColor("#fff").GetOr(TextColor.TRANSPARENT))
  {
    assert StartsWith("#fff", "#");
  }

  /** "false" in any case, while running, stops monitoring: the view is removed but still referenced. */
  lemma DisableStops(s: ServiceState, e: string, prefs: Prefs, parseColor: string -> Option<int>)
    requires Consistent(s) && Running(s) && EqualsIgnoreCase(e, "false")
    ensures var r := Processed(s, Bundle(Some(e), None, None), prefs, parseColor);
      r.outcome == Completed && !Running(r.state) && !r.state.isRunning && !r.state.hasBackgroundThread
      && r.state.displayText == Some(s.displayText.value.(attached := false))
  {
    EqualsIgnoreCaseTrueFalse(e);
  }

  /** Every other combination of enabled value and state leaves the state as it was. */
  lemma EnabledOtherwiseNoOp(s: ServiceState, e: string, prefs: Prefs, parseColor: string -> Option<int>)
    requires !(EqualsIgnoreCase(e, "true") && !Running(s))
    requires !(EqualsIgnoreCase(e, "false") && Running(s))
    ensures Processed(s, Bundle(Some(e), None, None), prefs, parseColor) == Step(s, Completed)
  {
  }

  /** A repeated enable or disable that completed the first time changes nothing the second time. */
  lemma RepeatedEnabledNoOp(s: ServiceState, e: string, prefs: Prefs, parseColor: string -> Option<int>)
    requires Consistent(s)
    requires Processed(s, Bundle(Some(e), None, None), prefs, parseColor).outcome == Completed
    ensures var s1 := Processed(s, Bundle(Some(e), None, None), prefs, parseColor).state;
      Processed(s1, Bundle(Some(e), None, None), prefs, parseColor) == Step(s1, Completed)
  {
    EqualsIgnoreCaseTrueFalse(e);
    var s1 := Processed(s, Bundle(Some(e), None, None), prefs, parseColor).state;
    if EqualsIgnoreCase(e, "true") {
      assert Running(s1);
    } else if EqualsIgnoreCase(e, "false") {
      assert !Running(s1);
    }
    EnabledOtherwiseNoOp(s1, e, prefs, parseColor);
  }

  // ---------------------------------------------------------------------------
  // Location and colour

  /** When the enabled part leaves the service not running, location and colour are ignored, not stored. */
  lemma StoppedIgnoresSettings(s: ServiceState, b: Bundle, prefs: Prefs, parseColor: string -> Option<int>)
    requires !Running(Enabled(s, b.enabled, prefs, parseColor).state)
    ensures Processed(s, b, prefs, parseColor) == Processed(s, Bundle(b.enabled, None, None), prefs, parseColor)
    ensures Processed(s, b, prefs, parseColor) == Enabled(s, b.enabled, prefs, parseColor)
  {
  }

  /** While running, a location and a colour reposition and recolour the view and change nothing else. */
  lemma RunningAppliesSettings(s: ServiceState, location: string, color: string, prefs: Prefs, parseColor: string -> Option<int>)
    requires Consistent(s) && Running(s) && Gravity.GravityFor(location).Some?
    ensures var r := Processed(s, Bundle(None, Some(location), Some(color)), prefs, parseColor);
      r.outcome == Completed
      && r.state == s.(displayText := Some(s.displayText.value.(
           gravity := Gravity.GravityFor(location),
           textColor := Some(TextColor.ColorValue(parseColor, color)))))
  {
  }

  /** A location that does not parse throws out of the command: nothing changes and the colour is not applied. */
  lemma BadLocationThrows(s: ServiceState, b: Bundle, prefs: Prefs, parseColor: string -> Option<int>)
    requires Consistent(s) && Running(s) && b.enabled.None?
    requires b.location.Some? && Gravity.GravityFor(b.location.value).None?
    ensures Processed(s, b, prefs, parseColor) == Step(s, NumberFormatException)
  {
  }

  /**
   * One command carrying enabled=true, a location and a colour starts the
   * overlay, then repositions and recolours it: the command's values win over
   * the stored ones.
   */
  lemma EnableWithSettings(s: ServiceState, e: string, location: string, color: string, prefs: Prefs, parseColor: string -> Option<int>)
    requires Consistent(s) && !Running(s) && EqualsIgnoreCase(e, "true")
    requires Gravity.GravityFor(prefs.location).Some? && Gravity.GravityFor(location).Some?
    ensures var r := Processed(s, Bundle(Some(e), Some(location), Some(color)), prefs, parseColor);
      r.outcome == Completed && Running(r.state) && r.state.hasBackgroundThread
      && r.state.displayText == Some(TextView(true, Gravity.GravityFor(location), Some(TextColor.ColorValue(parseColor, color)), ""))
  {
  }

  /** Without a display, `updateColor` changes nothing. */
  lemma ColoredWithoutDisplay(s: ServiceState, color: string, parseColor: string -> Option<int>)
    requires s.displayText.None?
    ensures Colored(s, color, parseColor) == s
  {
  }

  /** A colour the parser rejects leaves the text transparent. */
  lemma ColoredRejected(s: ServiceState, color: string, parseColor: string -> Option<int>)
    requires s.displayText.Some? && parseColor(TextColor.Normalized(color)).None?
    ensures Colored(s, color, parseColor).displayText.value.textColor == Some(TextColor.TRANSPARENT)
  {
  }

  // ---------------------------------------------------------------------------
  // Samples

  /** A sample changes the text, and only the text, exactly while the flag is set. */
  lemma DeliveredOnlyWhileRunning(s: ServiceState, text: string)
    requires Consistent(s)
    ensures !s.isRunning ==> Delivered(s, text) == s
    ensures s.isRunning ==> (Delivered(s, text).displayText.value.text == text
      && Delivered(s, text) == s.(displayText := Some(s.displayText.value.(text := text))))
  {
  }

  /** After a stop, samples no longer reach the view. */
  lemma NoSampleAfterStop(s: ServiceState, text: string)
    requires Consistent(s)
    ensures Delivered(Stopped(s), text) == Stopped(s)
    ensures Delivered(Destroyed(s), text) == Destroyed(s)
  {
  }

  // ---------------------------------------------------------------------------
  // Runs of events

  /** What reaches the service on its main thread: a start command, a posted sample, or destruction. */
  datatype Event = Command(bundle: Bundle, prefs: Prefs) | Sample(text: string) | Destroy

  /** One event applied to a consistent state; the result is consistent again. */
  function Applied(s: ServiceState, e: Event, parseColor: string -> Option<int>): (r: Step)
    requires Consistent(s)
    ensures Consistent(r.state)
    ensures e.Command? || r.outcome == Completed
  {
    match e
    case Command(b, prefs) =>
      ProcessedConsistent(s, b, prefs, parseColor);
      Processed(s, b, prefs, parseColor)
    case Sample(text) =>
      DeliveredConsistent(s, text);
      Step(Delivered(s, text), Completed)
    case Destroy =>
      DestroyedConsistent(s);
      Step(Destroyed(s), Completed)
  }

  /**
   * The events applied in order from `s`. An exception thrown out of a command
   * ends the run, since it ends the service's process.
   */
  function Run(s: ServiceState, events: seq<Event>, parseColor: string -> Option<int>): Step
    requires Consistent(s)
    decreases |events|
  {
    if events == [] then Step(s, Completed)
    else
      var next := Applied(s, events[0], parseColor);
      if next.outcome == NumberFormatException then next
      else Run(next.state, events[1..], parseColor)
  }

  /**
   * In every state reachable from a consistent one the invariant holds: a
   * background thread is recorded exactly while the flag is set, and then the
   * view exists and is on screen, so `isRunning()` is the flag.
   */
  lemma {:induction false} RunConsistent(s: ServiceState, events: seq<Event>, parseColor: string -> Option<int>)
    requires Consistent(s)
    ensures var r := Run(s, events, parseColor).state;
      Consistent(r) && (Running(r) <==> r.isRunning) && (Running(r) <==> r.hasBackgroundThread)
    decreases |events|
  {
    if events != [] {
      var next := Applied(s, events[0], parseColor);
      if next.outcome == Completed {
        RunConsistent(next.state, events[1..], parseColor);
      }
    }
  }

  /** Whatever ran before, a destroy leaves nothing running and the view dropped, and a later sample changes nothing. */
  lemma {:induction false} DestroyEndsRun(s: ServiceState, events: seq<Event>, text: string, parseColor: string -> Option<int>)
    requires Consistent(s)
    requires Run(s, events, parseColor).outcome == Completed
    ensures Run(s, events + [Destroy, Sample(text)], parseColor) == Step(INITIAL, Completed)
    decreases |events|
  {
    var tail := [Destroy, Sample(text)];
    if events == [] {
      assert events + tail == tail && tail[1..] == [Sample(text)];
      assert Run(INITIAL, [Sample(text)], parseColor) == Step(INITIAL, Completed) by {
        assert [Sample(text)][1..] == [];
      }
    } else {
      assert (events + tail)[0] == events[0];
      assert (events + tail)[1..] == events[1..] + tail;
      DestroyEndsRun(Applied(s, events[0], parseColor).state, events[1..], text, parseColor);
    }
  }

  // ---------------------------------------------------------------------------
  // A session

  /**
   * Enable with the stored location "0" and colour "fff", move to corner "3",
   * recolour to "ff0000", disable: the view goes top-left, then bottom-right,
   * takes each colour, and is finally removed with the service stopped.
   */
  lemma Session(parseColor: string -> Option<int>)
    ensures var prefs := Prefs("0", Some("fff"));
      var s1 := Processed(INITIAL, Bundle(Some("true"), None, None), prefs, parseColor);
      var s2 := Processed(s1.state, Bundle(None, Some("3"), None), prefs, parseColor);
      var s3 := Processed(s2.state, Bundle(None, None, Some("ff0000")), prefs, parseColor);
      var s4 := Processed(s3.state, Bundle(Some("false"), None, None), prefs, parseColor);
      s1.outcome == s2.outcome == s3.outcome == s4.outcome == Completed
      && s1.state.displayText == Some(TextView(true, Some(Gravity.GRAVITY_TOP | Gravity.GRAVITY_LEFT), Some(TextColor.ColorValue(parseColor, "#fff")), ""))
      && s2.state.displayText.value.gravity == Some(Gravity.GRAVITY_BOTTOM | Gravity.GRAVITY_RIGHT)
      && s3.state.displayText.value.textColor == Some(TextColor.ColorValue(parseColor, "ff0000"))
      && !Running(s4.state) && !s4.state.hasBackgroundThread && !s4.state.displayText.value.attached
  {
    var prefs := Prefs("0", Some("fff"));
    Gravity.GravityTable();
    EqualsIgnoreCaseTrueFalse("true");
    assert EqualsIgnoreCase("false", "false");
    assert !StartsWith("fff", "#") by { assert "fff"[..1][0] != "#"[0]; }
    assert !StartsWith("ff0000", "#") by { assert "ff0000"[..1][0] != "#"[0]; }
    TextColor.ColorValueHashOptional(parseColor, "fff");
    assert "#" + "fff" == "#fff";
    assert StoredColor(prefs) == "fff";
    var s1 := Processed(INITIAL, Bundle(Some("true"), None, None), prefs, parseColor);
    assert Running(s1.state);
    var s2 := Processed(s1.state, Bundle(None, Some("3"), None), prefs, parseColor);
    assert Running(s2.state);
    var s3 := Processed(s2.state, Bundle(None, None, Some("ff0000")), prefs, parseColor);
    assert Running(s3.state);
  }
}
