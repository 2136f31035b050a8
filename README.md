# InfoOverlay overlay controller, modelled in Dafny

InfoOverlay is an Android app that shows the class name of the foreground
activity in a small text overlay pinned to a corner of the screen. Its only
real logic is the controller in `OverlayService`. That controller owns three
fields: the `isRunning` flag, the overlaid `displayText` view and the
`backgroundThread`. It applies start commands whose extras `enabled`,
`location` and `color` are each an optional string. This project models it:

- `wrappers.dfy` (`Wrappers`): `Option`, for null references and for library calls that throw.
- `java_lang.dfy` (`JavaLang`): `Integer.parseInt` with radix 10 and its 32-bit range,
  `Integer.toString` as its inverse, `String.startsWith` and `String.equalsIgnoreCase`.
- `gravity.dfy` (`Gravity`): `getGravity(String)`. A corner code maps to
  `android.view.Gravity` flags. A value that does not parse gives `None`, which stands for the
  uncaught `NumberFormatException`.
- `text_color.dfy` (`TextColor`): the pure part of `updateColor`. A missing `#` is added, and a
  parse failure gives colour 0. `Color.parseColor` is a parameter
  `parseColor: string -> Option<int>`, so that every property holds for any parser.
- `overlay_model.dfy` (`OverlayModel`): the service's fields as a value `ServiceState`, one
  function per operation (`Started`, `Stopped`, `Destroyed`, `Located`, `Colored`,
  `Enabled`, `Processed`, `Delivered`), the invariant `Consistent`, and the lemmas. `Run` applies
  a sequence of events (commands, samples, destruction) in order; an exception ends the run.
- `overlay_service.dfy` (`OverlayService`): the class `OverlayService`. Its mutable fields mirror the
  Java ones. Each method's postcondition ties the new fields to the matching `OverlayModel`
  function of the old fields, so the lemmas about those functions hold of the object.

An exception that escapes a command is the outcome `NumberFormatException`. The
state is then left as the Java code leaves it at the throw. If the stored location
does not parse, `startMonitoring` has already created a new `TextView`, but has not
added it or set the flag. If the command's location does not parse, nothing has
changed, and the colour in the same command is not applied.

What the code does, and does not do:
- `stopMonitoring` clears the flag and the thread and removes the view, but
  keeps the `displayText` reference. Only `onDestroy` drops it.
- A location or colour that arrives while the overlay is stopped is ignored, not stored.
- A location that is not an integer makes the command throw. It does not fall back to top-left.
- Stop does not wait for the worker thread.
- Samples go through a message queue, not a single latest-wins slot.

## Model

| member | source | states |
|---|---|---|
| JavaLang.StartsWith | InfoOverlay/src/main/java/com/trevore/infooverlay/OverlayService.java:126 | a string starts with a prefix exactly when it is that prefix followed by the rest |
| JavaLang.EqualsIgnoreCase | InfoOverlay/src/main/java/com/trevore/infooverlay/OverlayService.java:106-109 | strings equal ignoring case have the same length, and every string equals itself ignoring case |
| JavaLang.EqualsIgnoreCaseSymmetric | InfoOverlay/src/main/java/com/trevore/infooverlay/OverlayService.java:106-109 | equality ignoring case is symmetric |
| JavaLang.ParseInt | InfoOverlay/src/main/java/com/trevore/infooverlay/OverlayService.java:203 | a parse succeeds exactly on an optional sign followed by at least one decimal digit whose signed value is in the 32-bit range, and then yields that signed value |
| JavaLang.ParseShow | InfoOverlay/src/main/java/com/trevore/infooverlay/OverlayService.java:203 | every 32-bit integer written in decimal parses back to itself |
| JavaLang.ParseShowOutOfRange | InfoOverlay/src/main/java/com/trevore/infooverlay/OverlayService.java:203 | the decimal text of every integer outside the 32-bit range does not parse |
| JavaLang.ParseIntTooLarge | InfoOverlay/src/main/java/com/trevore/infooverlay/OverlayService.java:203 | "2147483648", one past the largest int, does not parse |
| JavaLang.ParseIntRejectsNonDigit | InfoOverlay/src/main/java/com/trevore/infooverlay/OverlayService.java:203 | a string with a character that is neither a digit nor a leading sign does not parse |
| JavaLang.ParseIntEdges | InfoOverlay/src/main/java/com/trevore/infooverlay/OverlayService.java:203 | the empty string and a lone sign do not parse; "+3" and "03" parse to 3 |
| JavaLang.EqualsIgnoreCaseTrueFalse | InfoOverlay/src/main/java/com/trevore/infooverlay/OverlayService.java:106-109 | no value equals both "true" and "false" ignoring case; "TRUE" and "False" match |
| Gravity.Flags | InfoOverlay/src/main/java/com/trevore/infooverlay/OverlayService.java:205-217 | the vertical mask recovers TOP or BOTTOM and the horizontal mask recovers LEFT or RIGHT of the corner |
| Gravity.FlagsInjective | InfoOverlay/src/main/java/com/trevore/infooverlay/OverlayService.java:203-218 | distinct corners get distinct gravity flags |
| Gravity.CornerOf | InfoOverlay/src/main/java/com/trevore/infooverlay/OverlayService.java:203-218 | codes 2 and 3 (and only they) are bottom; codes 1 and 3 (and only they) are right |
| Gravity.CodeOf | InfoOverlay/src/main/java/com/trevore/infooverlay/OverlayService.java:203-215 | every corner has a code in 0..3 that maps back to it |
| Gravity.OutOfRangeIsTopLeft | InfoOverlay/src/main/java/com/trevore/infooverlay/OverlayService.java:216-217 | every code outside 0..3 maps to top-left, the same corner as code 0 |
| Gravity.GravityFor | InfoOverlay/src/main/java/com/trevore/infooverlay/OverlayService.java:200-221 | the mapping fails exactly when parseInt throws |
| Gravity.GravityTable | InfoOverlay/src/main/java/com/trevore/infooverlay/OverlayService.java:203-215 | "0", "1", "2", "3" give TOP\|LEFT, TOP\|RIGHT, BOTTOM\|LEFT, BOTTOM\|RIGHT |
| Gravity.GravityForDecimal | InfoOverlay/src/main/java/com/trevore/infooverlay/OverlayService.java:203-218 | the decimal text of any 32-bit code gives that code's corner flags, TOP\|LEFT outside 0..3 |
| Gravity.GravityForNonNumeric | InfoOverlay/src/main/java/com/trevore/infooverlay/OverlayService.java:203 | a value with a non-digit character (other than a leading sign) has no gravity: the parse throws |
| Gravity.GravityForEmptyOrWord | InfoOverlay/src/main/java/com/trevore/infooverlay/OverlayService.java:203 | "", "-" and "top" have no gravity rather than a default |
| TextColor.Normalized | InfoOverlay/src/main/java/com/trevore/infooverlay/OverlayService.java:126-128 | the result starts with '#'; a colour already starting with '#' is unchanged, otherwise '#' is prefixed |
| TextColor.NormalizedIdempotent | InfoOverlay/src/main/java/com/trevore/infooverlay/OverlayService.java:126-128 | normalising twice equals normalising once |
| TextColor.NormalizedHashOptional | InfoOverlay/src/main/java/com/trevore/infooverlay/OverlayService.java:126-128 | "fff" and "#fff" normalise to the same string |
| TextColor.ColorValue | InfoOverlay/src/main/java/com/trevore/infooverlay/OverlayService.java:129-134 | the applied colour is the parser's value, or 0 when the parser rejects the normalised string |
| TextColor.ColorValueHashOptional | InfoOverlay/src/main/java/com/trevore/infooverlay/OverlayService.java:126-134 | a colour with or without its '#' gives the same text colour, for every parser |
| TextColor.ColorValueOnlyAsksHashed | InfoOverlay/src/main/java/com/trevore/infooverlay/OverlayService.java:126-130 | the result depends on the parser only at strings starting with '#' |
| OverlayModel.Running | InfoOverlay/src/main/java/com/trevore/infooverlay/OverlayService.java:144-146 | isRunning() implies a display exists, and in a consistent state it equals the flag |
| OverlayModel.Started | InfoOverlay/src/main/java/com/trevore/infooverlay/OverlayService.java:226-260 | start completes exactly when the stored location parses, and then the view is attached with that gravity and the stored colour, with flag and thread set; otherwise only a fresh unattached view is stored |
| OverlayModel.Stopped | InfoOverlay/src/main/java/com/trevore/infooverlay/OverlayService.java:265-269 | stop leaves nothing running and no thread; the view reference is kept, detached |
| OverlayModel.Destroyed | InfoOverlay/src/main/java/com/trevore/infooverlay/OverlayService.java:166-172 | destroy leaves nothing running, no thread and no view |
| OverlayModel.Located | InfoOverlay/src/main/java/com/trevore/infooverlay/OverlayService.java:178-182 | updateLocation throws exactly when the value does not parse, changing nothing; otherwise only the view's gravity changes |
| OverlayModel.Colored | InfoOverlay/src/main/java/com/trevore/infooverlay/OverlayService.java:123-138 | updateColor changes nothing without a display, and otherwise only the view's colour, to the normalised parsed-or-0 value |
| OverlayModel.Enabled | InfoOverlay/src/main/java/com/trevore/infooverlay/OverlayService.java:105-112 | the enabled step throws only when starting; once it completes, the service runs after "true", not after "false", and as before otherwise |
| OverlayModel.Processed | InfoOverlay/src/main/java/com/trevore/infooverlay/OverlayService.java:100-121 | a command keeps the invariant, throws only if it carries enabled or location, and location and colour never change whether the service runs |
| OverlayModel.Delivered | InfoOverlay/src/main/java/com/trevore/infooverlay/OverlayService.java:65-74 | a sample keeps the invariant and the lifecycle, changes nothing while the flag is clear, and otherwise sets the text |
| OverlayModel.InitialConsistent | InfoOverlay/src/main/java/com/trevore/infooverlay/OverlayService.java:34-39 | the initial fields satisfy the invariant and the service is not running |
| OverlayModel.ProcessedConsistent | InfoOverlay/src/main/java/com/trevore/infooverlay/OverlayService.java:100-121 | every command keeps the invariant, whether it completes or throws |
| OverlayModel.DeliveredConsistent | InfoOverlay/src/main/java/com/trevore/infooverlay/OverlayService.java:65-74 | delivering a sample keeps the invariant |
| OverlayModel.DestroyedConsistent | InfoOverlay/src/main/java/com/trevore/infooverlay/OverlayService.java:166-172 | after destroy the flag, thread and view are all cleared |
| OverlayModel.RunningIsFlag | InfoOverlay/src/main/java/com/trevore/infooverlay/OverlayService.java:144-146 | in a consistent state isRunning() equals the flag |
| OverlayModel.EnableStarts | InfoOverlay/src/main/java/com/trevore/infooverlay/OverlayService.java:105-108 | "true" while stopped starts: attached view with the stored location's gravity and stored colour, flag and thread set; if the stored location does not parse, the command throws with a fresh unattached view and no flag |
| OverlayModel.EnableStartsWithDefaultColor | InfoOverlay/src/main/java/com/trevore/infooverlay/OverlayService.java:226-233 | with no stored colour the new view gets the colour of "#fff", or 0 if it fails to parse |
| OverlayModel.DisableStops | InfoOverlay/src/main/java/com/trevore/infooverlay/OverlayService.java:109-111 | "false" while running clears the flag and the thread and removes the view, which stays referenced |
| OverlayModel.EnabledOtherwiseNoOp | InfoOverlay/src/main/java/com/trevore/infooverlay/OverlayService.java:105-112 | every other combination of enabled value and state leaves the state unchanged |
| OverlayModel.RepeatedEnabledNoOp | InfoOverlay/src/main/java/com/trevore/infooverlay/OverlayService.java:105-112 | repeating a completed enable or disable command changes nothing |
| OverlayModel.StoppedIgnoresSettings | InfoOverlay/src/main/java/com/trevore/infooverlay/OverlayService.java:114-120 | if the service is not running after the enabled step, location and colour have no effect at all |
| OverlayModel.RunningAppliesSettings | InfoOverlay/src/main/java/com/trevore/infooverlay/OverlayService.java:114-120 | while running, a parsable location and a colour set the view's gravity and colour and nothing else |
| OverlayModel.BadLocationThrows | InfoOverlay/src/main/java/com/trevore/infooverlay/OverlayService.java:114-116 | while running, an unparsable location throws with the state unchanged and the colour not applied |
| OverlayModel.EnableWithSettings | InfoOverlay/src/main/java/com/trevore/infooverlay/OverlayService.java:105-120 | enabled=true plus location and colour in one command starts, then repositions and recolours with the command's values |
| OverlayModel.ColoredWithoutDisplay | InfoOverlay/src/main/java/com/trevore/infooverlay/OverlayService.java:124 | without a display updateColor changes nothing |
| OverlayModel.ColoredRejected | InfoOverlay/src/main/java/com/trevore/infooverlay/OverlayService.java:129-135 | a rejected colour makes the text colour 0 |
| OverlayModel.DeliveredOnlyWhileRunning | InfoOverlay/src/main/java/com/trevore/infooverlay/OverlayService.java:68-71 | a sample replaces the text, and only the text, exactly while the flag is set |
| OverlayModel.NoSampleAfterStop | InfoOverlay/src/main/java/com/trevore/infooverlay/OverlayService.java:265-269 | after stop or destroy a sample changes nothing |
| OverlayModel.Applied | InfoOverlay/src/main/java/com/trevore/infooverlay/OverlayService.java:65-172 | applying a command, a sample or destruction to a consistent state gives a consistent state; only a command can throw |
| OverlayModel.RunConsistent | InfoOverlay/src/main/java/com/trevore/infooverlay/OverlayService.java:144-146 | in every state reachable by any sequence of events the invariant holds, and isRunning() equals both the flag and "a thread is recorded" |
| OverlayModel.DestroyEndsRun | InfoOverlay/src/main/java/com/trevore/infooverlay/OverlayService.java:166-172 | after any completed sequence of events, destroy returns the fields to their initial values and a later sample changes nothing |
| OverlayModel.Session | InfoOverlay/src/main/java/com/trevore/infooverlay/OverlayService.java:100-121 | enable with stored "0"/"fff", move to "3", recolour "ff0000", disable: top-left, bottom-right, each colour, then stopped and removed |
| OverlayService.OverlayService.constructor | InfoOverlay/src/main/java/com/trevore/infooverlay/OverlayService.java:34-60 | no flag, no view, no thread |
| OverlayService.OverlayService.IsRunning | InfoOverlay/src/main/java/com/trevore/infooverlay/OverlayService.java:144-146 | isRunning() is the spec predicate Running, and equals the flag when the object is valid |
| OverlayService.OverlayService.ProcessBundle | InfoOverlay/src/main/java/com/trevore/infooverlay/OverlayService.java:100-121 | the new fields and outcome are exactly Processed of the old fields; the invariant is kept |
| OverlayService.OverlayService.UpdateColor | InfoOverlay/src/main/java/com/trevore/infooverlay/OverlayService.java:123-138 | the new fields are Colored of the old ones |
| OverlayService.OverlayService.StopMonitoring | InfoOverlay/src/main/java/com/trevore/infooverlay/OverlayService.java:265-269 | the new fields are Stopped of the old ones |
| OverlayService.OverlayService.OnDestroy | InfoOverlay/src/main/java/com/trevore/infooverlay/OverlayService.java:166-172 | the new fields are the initial ones and the service is not running |
| OverlayService.OverlayService.UpdateLocation | InfoOverlay/src/main/java/com/trevore/infooverlay/OverlayService.java:178-182 | the new fields and outcome are Located of the old fields |
| OverlayService.OverlayService.StartMonitoring | InfoOverlay/src/main/java/com/trevore/infooverlay/OverlayService.java:226-260 | the new fields and outcome are Started of the old fields |
| OverlayService.OverlayService.HandleMessage | InfoOverlay/src/main/java/com/trevore/infooverlay/OverlayService.java:65-74 | the new fields are Delivered of the old ones |
| OverlayService.EnableTwice | InfoOverlay/src/main/java/com/trevore/infooverlay/OverlayService.java:105-108 | on a fresh service, the first "true" completes exactly when the stored location parses, and then the second leaves the fields as the first left them, running |

## Left out

- The Android service plumbing is not modelled: `onBind`, the system-service lookups in `onCreate`, the `START_STICKY` result and taking the extras out of the Intent (lines 76-98). A command is a `Bundle` of three optional strings.
- The shared preferences are not modelled. They are a `Prefs` value given to each command. The default of the location preference is the resource `R.string.location_top_left`, which is not part of this model, so `Prefs.location` carries the value the store returns.
- `WindowManager` and `TextView`: the model records only whether the view is
  attached, its gravity, its colour and its text. `getLayoutParams` (lines 153-163) is reduced to the gravity.
- OverlayService.OverlayService.OnDestroy, OverlayModel.DestroyEndsRun: both assume `removeViewImmediate` at line 170 returns.
  The platform throws there for a null view (destroy before any start) and for a view a stop already removed (destroy after stop),
  and then `displayText` is never cleared; the model does not capture that failure.
- The background thread (lines 236-259) is not modelled: its polling of `ActivityManager.getRunningTasks`, the 300 ms sleep,
  the interrupt handler that clears the flag, and the posting of messages to the handler. This is cross-thread behaviour
  (the flag is not volatile). Sample delivery is the sequential `HandleMessage`. For the same reason the model does not show
  that a stop followed quickly by a start can leave the old thread running beside the new one.
- `Log.d` is not modelled. `Color.parseColor` is an arbitrary function. The model does not capture which strings
  it accepts; for instance, whether it accepts three-digit forms such as the default "#fff" is outside the model.
- JavaLang.EqualsIgnoreCase: folds only ASCII letters. Java also matches characters whose Unicode case mapping
  lands on an ASCII letter (such as U+017F, long s, against "s").
- JavaLang.ParseInt: accepts only ASCII digits, while Java's `Character.digit` also accepts other Unicode decimal digits.
- MainActivity.java, BaseModule.java and MainApplication.java (the settings screen, dependency injection and
  app bootstrap) are not part of this model.
