/**
 * `OverlayService` as an object whose fields its methods update in place.
 * Each method is proved to leave the fields as the matching function of
 * module `OverlayModel` says, so the lemmas proved there hold of the object.
 */
module OverlayService {
  import opened Wrappers
  import opened JavaLang
  import Gravity
  import TextColor
  import opened OverlayModel

  class OverlayService {
    /** Whether the background thread is running. */
    var isRunning: bool
    /** The view overlaid on the screen; `None` for null. */
    var displayText: Option<TextView>
    /** Whether `backgroundThread` holds a thread. */
    var hasBackgroundThread: bool
    /** How `Color.parseColor` behaves: `None` where it throws `IllegalArgumentException`. */
    const parseColor: string -> Option<int>

    /** The fields as a value. */
    function Snapshot(): ServiceState
      reads this
    {
      ServiceState(isRunning, displayText, hasBackgroundThread)
    }

    ghost predicate Valid()
      reads this
    {
      Consistent(Snapshot())
    }

    constructor (parseColor: string -> Option<int>)
      ensures Valid() && Snapshot() == INITIAL && this.parseColor == parseColor
    {
      isRunning := false;
      displayText := None;
      hasBackgroundThread := false;
      this.parseColor := parseColor;
    }

    /** `isRunning()`: whether the background thread is updating the view. */
    function IsRunning(): (r: bool)
      reads this
      ensures r == Running(Snapshot())
      ensures Valid() ==> (r <==> isRunning)
    {
      isRunning && displayText.Some?
    }

    method ProcessBundle(bundle: Bundle, prefs: Prefs) returns (outcome: Outcome)
      requires Valid()
      modifies this
      ensures Valid()
      ensures Step(Snapshot(), outcome) == Processed(old(Snapshot()), bundle, prefs, parseColor)
    {
      outcome := Completed;
      if bundle.enabled.Some? {
        var enabled := bundle.enabled.value;
        if EqualsIgnoreCase(enabled, "true") && !IsRunning() {
          outcome := StartMonitoring(prefs);
          if outcome == NumberFormatException {
            return;
          }
        } else if EqualsIgnoreCase(enabled, "false") && IsRunning() {
          StopMonitoring();
        }
      }
      ghost var afterEnabled := Snapshot();
      assert Enabled(old(Snapshot()), bundle.enabled, prefs, parseColor) == Step(afterEnabled, Completed);

      if bundle.location.Some? && IsRunning() {
        outcome := UpdateLocation(bundle.location.value);
        if outcome == NumberFormatException {
          return;
        }
      }

      if bundle.color.Some? && IsRunning() {
        UpdateColor(bundle.color.value);
      }
    }

    /** Prefixes `#` when missing, parses, and applies the colour or 0; nothing without a display. */
    method UpdateColor(color: string)
      requires Valid()
      modifies this
      ensures Valid()
      ensures Snapshot() == Colored(old(Snapshot()), color, parseColor)
    {
      if displayText.Some? {
        var normalized := color;
        if !StartsWith(normalized, "#") {
          normalized := "#" + normalized;
        }
        var textColor: int;
        match parseColor(normalized) {
          case Some(v) => textColor := v;
          case None => textColor := TextColor.TRANSPARENT;
        }
        displayText := Some(displayText.value.(textColor := Some(textColor)));
      }
    }

    /** Stops the background thread and removes the view from the screen. */
    method StopMonitoring()
      modifies this
      ensures Valid()
      ensures Snapshot() == Stopped(old(Snapshot()))
    {
      isRunning := false;
      hasBackgroundThread := false;
      displayText := Detached(displayText);
    }

    /** Clears the flag and the thread, removes the view and drops it. */
    method OnDestroy()
      modifies this
      ensures Valid() && !IsRunning()
      ensures Snapshot() == Destroyed(old(Snapshot()))
    {
      isRunning := false;
      hasBackgroundThread := false;
      displayText := Detached(displayText);
      displayText := None;
    }

    /** Moves the view to the corner the preference value names; a value that does not parse throws. */
    method UpdateLocation(preferenceValue: string) returns (outcome: Outcome)
      requires Valid()
      modifies this
      ensures Valid()
      ensures Step(Snapshot(), outcome) == Located(old(Snapshot()), preferenceValue)
    {
      var gravity := Gravity.GravityFor(preferenceValue);
      if gravity.None? {
        return NumberFormatException;
      }
      if displayText.Some? {
        displayText := Some(displayText.value.(gravity := gravity));
      }
      outcome := Completed;
    }

    /** Creates the view at the stored location and colour, then sets the flag and starts the thread. */
    method StartMonitoring(prefs: Prefs) returns (outcome: Outcome)
      requires Valid() && !IsRunning()
      modifies this
      ensures Valid()
      ensures Step(Snapshot(), outcome) == Started(old(Snapshot()), prefs, parseColor)
    {
      displayText := Some(NEW_TEXT_VIEW);
      var gravity := Gravity.GravityFor(prefs.location);
      if gravity.None? {
        return NumberFormatException;
      }
      displayText := Some(displayText.value.(attached := true, gravity := gravity));
      UpdateColor(StoredColor(prefs));
      isRunning := true;
      hasBackgroundThread := true;
      outcome := Completed;
    }

    /** The handler: a sample sets the view's text while the flag is set. */
    method HandleMessage(text: string)
      requires Valid()
      modifies this
      ensures Valid()
      ensures Snapshot() == Delivered(old(Snapshot()), text)
    {
      if isRunning {
        displayText := Some(displayText.value.(text := text));
      }
    }
  }

  /**
   * What a caller of the object can conclude from the contracts alone: sending
   * "true" a second time, after a first that completed, changes nothing.
   */
  method EnableTwice(parseColor: string -> Option<int>, prefs: Prefs)
    returns (service: OverlayService, first: Outcome, once: ServiceState, twice: ServiceState)
    ensures service.Valid() && twice == service.Snapshot()
    ensures first == Completed <==> Gravity.GravityFor(prefs.location).Some?
    ensures first == Completed ==> twice == once && Running(twice)
  {
    service := new OverlayService(parseColor);
    first := service.ProcessBundle(Bundle(Some("true"), None, None), prefs);
    once := service.Snapshot();
    var second := service.ProcessBundle(Bundle(Some("true"), None, None), prefs);
    twice := service.Snapshot();
    EnableStarts(INITIAL, "true", prefs, parseColor);
    if first == Completed {
      RepeatedEnabledNoOp(INITIAL, "true", prefs, parseColor);
    }
  }
}
