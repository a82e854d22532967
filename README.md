# Interact Use, modelled in Dafny

This project models the use logic of the VR toolkit's Interact Use component
(`VRTK_InteractUse`), the script on a controller that turns presses of a "use" button into
start-using and stop-using calls on the interactable object the controller touches.

Under the engine glue, the component is a small, deterministic state machine with three
parts:

- **Use-button subscription.** `useButton` is the alias the component should listen to.
  `subscribedUseButton` is the alias its press and release handlers are currently attached
  to. `ManageUseListener(true)` reconciles the two; `ManageUseListener(false)` detaches the
  handlers.
- **Per-object button override.** Touching an object that asks for its own use button saves
  the subscribed alias and swaps the desired one. Untouching restores it once.
- **Use lifecycle.** The controller uses at most one object. Each object's script keeps a
  `usingState` press counter. A hold-to-use object stops on release. A toggle object counts
  presses and stops on the release that follows the second press.

The model has four modules:

- `UseModel` (`use_model.dfy`): the component's state as a value and one function per
  operation of the source. Each function's contract states what the operation promises.
  Game objects are ids. The interactable-object script of an object is a record of the flags
  the component reads and the counter it writes. An id with no record is a game object
  without the script. Calls into other components and emitted events are appended to a log.
- `UseInvariant` (`use_invariant.dfy`): a replay of the log that checks two protocols.
  Subscription calls must come as press/release pairs, subscribing only when nothing is
  bound and unsubscribing only the bound alias. A StopUsing call or an unuse event must
  belong to the latest open use event. The invariant `Inv` ties the fields to that replay.
  Every operation keeps it, and so does any run of signals (`RunInv`).
- `UseScenarios` (`use_scenarios.dfy`): short call sequences. They cover toggle and hold
  cycles, the override round trip, idempotence, and the controller that drops an object
  without unusing it.
- `Interactions` (`interact_use.dfy`): the component as a class whose fields are updated in
  place. The scripts live in a shared `Scene` object, whose counters the component writes.
  Every method is proved equal to its `UseModel` function. Every public operation and
  handler also keeps `Valid()`, which is `Inv` of the current state. The four internal
  helpers (`SetObjectUsingState`, `AttemptHaptics`, `ToggleControllerVisibility` and
  `CountPress`) do not state `Valid()`; their callers re-establish it. The log is a ghost field.

The engine supplies some inputs that the source looks up itself. They are parameters here:
the touched object, the grabbed object (`GetFromGrab`), and whether the controller-events
component was found on enable. Four answers of other components are fields of the object
record: `IsObjectInteractable`, `IsValidInteractableController`, `IsGrabbed` and `IsUsing`.

Notes on the code as written:

- The subscription is reconciled only when the controller-events component is present. So
  "after `ManageUseListener(true)` the subscribed alias is the desired one" and "after
  `OnDisable` nothing is subscribed" hold only with that component. The contracts say so.
- Nothing in this file calls `ManageInteractTouchListener`, so nothing here attaches the two
  touch handlers. They are modelled as operations invoked when a touch or untouch reaches
  them.
- A touch saves `subscribedUseButton`, not `useButton`. An untouch restores the saved alias
  only when the object is not in use and an alias was saved. Restoring "exactly once per
  touch/untouch pair" therefore holds only under those conditions.
- A use attempt on an object that does not accept this controller clears `usingObject`
  without unusing the object that was in use. Switching to another usable object does not
  unuse the first either. Both are kept as written (`DisallowedObjectDropsCurrentUse`,
  `SwitchWithoutUnuse`).

## Model

| member | source | states |
|---|---|---|
| `UseModel.Initial` | Assets/VRTK/Scripts/Interactions/VRTK_InteractUse.cs:29-44 | a new component wants the trigger press, has nothing subscribed or saved, uses nothing, has no controller-events component yet and has an empty log |
| `UseModel.IsObjectHoldOnUse` | Assets/VRTK/Scripts/Interactions/VRTK_InteractUse.cs:197-205 | true only for a non-null object that carries the script; a null object is never hold-to-use |
| `UseModel.GetObjectUsingState` | Assets/VRTK/Scripts/Interactions/VRTK_InteractUse.cs:207-218 | a null object, or one without the script, reads as counter 0 |
| `UseModel.SetObjectUsingState` | Assets/VRTK/Scripts/Interactions/VRTK_InteractUse.cs:220-230 | reading the counter back gives the value written (0 for a null or script-less object, where the write is a no-op); no other object and no other field changes; the set of objects is kept |
| `UseModel.ManageUseListener` | Assets/VRTK/Scripts/Interactions/VRTK_InteractUse.cs:175-190 | with the controller-events component, `true` leaves the subscribed alias equal to the desired one (Undefined included) and `false` leaves it Undefined; without the component nothing changes; when already in sync nothing happens; handlers are unsubscribed from the old alias and subscribed to the new one as press/release pairs exactly when the binding changes; only the binding and the log change |
| `UseModel.ControllerTouchInteractableObject` | Assets/VRTK/Scripts/Interactions/VRTK_InteractUse.cs:149-160 | touching an object whose override button is not Undefined saves the subscribed alias and makes the override the desired button; any other touch (null, no script, no override) changes nothing |
| `UseModel.ControllerUntouchInteractableObject` | Assets/VRTK/Scripts/Interactions/VRTK_InteractUse.cs:162-173 | the state changes exactly when the object is not in use and an alias was saved, and then only by restoring the saved alias and clearing it to Undefined |
| `UseModel.ToggleControllerVisibility` | Assets/VRTK/Scripts/Interactions/VRTK_InteractUse.cs:244-254 | records one visibility request for the object in use; nothing without one |
| `UseModel.AttemptHaptics` | Assets/VRTK/Scripts/Interactions/VRTK_InteractUse.cs:232-242 | records one haptics request for the object in use; nothing without one |
| `UseModel.UseInteractedObject` | Assets/VRTK/Scripts/Interactions/VRTK_InteractUse.cs:256-274 | no change when the touched object is already in use or not usable; when it does not accept this controller, nothing is in use afterwards and nothing is called or emitted; otherwise it is in use, its StartUsing is called once and one use event is emitted; only `usingObject` and the log change |
| `UseModel.UnuseInteractedObject` | Assets/VRTK/Scripts/Interactions/VRTK_InteractUse.cs:276-289 | no change without an object in use; otherwise StopUsing is called only on a complete stop of an object with the script, one unuse event follows, and nothing is in use afterwards; counters and bindings are kept |
| `UseModel.StopUsing` | Assets/VRTK/Scripts/Interactions/VRTK_InteractUse.cs:301-305 | the object in use ends with counter 0 and is no longer in use; for an object with the script its StopUsing is called once, for one without it no StopUsing call is made and no script changes; then the controller is shown and one unuse event is emitted; other objects, bindings and the press flag are unchanged; a no-op without an object in use |
| `UseModel.ForceStopUsing` | Assets/VRTK/Scripts/Interactions/VRTK_InteractUse.cs:87-93 | nothing is in use afterwards; a no-op without an object in use, otherwise a full StopUsing |
| `UseModel.ForceResetUsing` | Assets/VRTK/Scripts/Interactions/VRTK_InteractUse.cs:98-104 | nothing is in use afterwards; the object's StopUsing is not called and no counter changes (only a visibility request and an unuse event are recorded); a no-op without an object in use |
| `UseModel.UseTarget` | Assets/VRTK/Scripts/Interactions/VRTK_InteractUse.cs:309-322 | the touched object is the candidate, else the grabbed one; the result is that candidate exactly when it is interactable and is not a use-only-if-grabbed object that is not grabbed, and nothing otherwise |
| `UseModel.AttemptUseObject` | Assets/VRTK/Scripts/Interactions/VRTK_InteractUse.cs:307-330 | without a usable target nothing changes; otherwise the outcome for `usingObject` and the log is UseInteractedObject's; the counter of the resulting object in use goes up by exactly 1 unless it is hold-to-use; no other counter and no binding changes |
| `UseModel.CountPress` | Assets/VRTK/Scripts/Interactions/VRTK_InteractUse.cs:325-328 | the counter of the object in use goes up by exactly 1 unless it is hold-to-use or has no script; no other counter and no other field changes; the set of objects is kept |
| `UseModel.DoStartUseObject` | Assets/VRTK/Scripts/Interactions/VRTK_InteractUse.cs:332-336 | the use button reads as pressed afterwards; everything else is a use attempt |
| `UseModel.DoStopUseObject` | Assets/VRTK/Scripts/Interactions/VRTK_InteractUse.cs:338-345 | the use button reads as released afterwards; the object in use is stopped (and nothing is in use) exactly when it is hold-to-use or its counter is at least 2; otherwise nothing else changes |
| `UseModel.OnEnable` | Assets/VRTK/Scripts/Interactions/VRTK_InteractUse.cs:114-121 | records whether the controller-events component was found; only that flag, the subscribed alias and the log change; if found, the subscribed alias is the desired one afterwards and the log gains only the unsubscribe pair of the old alias and the subscribe pair of the new one, each exactly when the binding changes and the alias is defined; if not found, nothing else changes |
| `UseModel.OnDisable` | Assets/VRTK/Scripts/Interactions/VRTK_InteractUse.cs:123-127 | nothing is in use afterwards; with the controller-events component nothing is subscribed, without it the subscribed alias is kept; the previous object's record changes only in its counter, now 0, and no other script changes; the log gains the StopUsing call (object with the script only), the visibility request and the unuse event when an object was in use, then the unsubscribe pair when an alias was bound; the desired and saved aliases, the pressed flag and the controller-events flag are kept |
| `UseInvariant.AuditSnoc` | Assets/VRTK/Scripts/Interactions/VRTK_InteractUse.cs:179-187 | replaying one more logged call is one more step of the protocol replay |
| `UseInvariant.AuditPairs` | Assets/VRTK/Scripts/Interactions/VRTK_InteractUse.cs:179-187 | replaying a logged subscribe or unsubscribe pair is the two protocol steps in order |
| `UseInvariant.InitialInv` | Assets/VRTK/Scripts/Interactions/VRTK_InteractUse.cs:40-44 | a freshly created component (nothing subscribed or saved, nothing in use, empty log) meets the invariant |
| `UseInvariant.ManageUseListenerInv` | Assets/VRTK/Scripts/Interactions/VRTK_InteractUse.cs:175-190 | reconciling keeps the invariant: subscription calls stay properly paired and the subscribed alias stays the one the log leaves bound |
| `UseInvariant.TouchInv` | Assets/VRTK/Scripts/Interactions/VRTK_InteractUse.cs:149-173 | the touch and untouch handlers keep the invariant |
| `UseInvariant.UseInteractedObjectInv` | Assets/VRTK/Scripts/Interactions/VRTK_InteractUse.cs:256-274 | using keeps the invariant: the object in use is the one of the latest open use event |
| `UseInvariant.UnuseInteractedObjectInv` | Assets/VRTK/Scripts/Interactions/VRTK_InteractUse.cs:276-289 | unusing keeps the invariant: the StopUsing call and the unuse event belong to the open use |
| `UseInvariant.SetObjectUsingStateInv` | Assets/VRTK/Scripts/Interactions/VRTK_InteractUse.cs:220-230 | writing a counter keeps the invariant |
| `UseInvariant.StopUsingInv` | Assets/VRTK/Scripts/Interactions/VRTK_InteractUse.cs:87-104 | StopUsing, ForceStopUsing and ForceResetUsing keep the invariant |
| `UseInvariant.AttemptUseObjectInv` | Assets/VRTK/Scripts/Interactions/VRTK_InteractUse.cs:307-330 | a use attempt keeps the invariant |
| `UseInvariant.HandlersInv` | Assets/VRTK/Scripts/Interactions/VRTK_InteractUse.cs:332-345 | the press and release handlers keep the invariant |
| `UseInvariant.PressInv` | Assets/VRTK/Scripts/Interactions/VRTK_InteractUse.cs:332-336 | the press handler keeps the invariant |
| `UseInvariant.ReleaseInv` | Assets/VRTK/Scripts/Interactions/VRTK_InteractUse.cs:338-345 | the release handler keeps the invariant |
| `UseInvariant.ReleaseFrame` | Assets/VRTK/Scripts/Interactions/VRTK_InteractUse.cs:338-345 | the release handler adds or removes no object and only appends to the log |
| `UseInvariant.LifecycleInv` | Assets/VRTK/Scripts/Interactions/VRTK_InteractUse.cs:114-127 | enabling and disabling keep the invariant |
| `UseInvariant.AttemptUseObjectFrame` | Assets/VRTK/Scripts/Interactions/VRTK_InteractUse.cs:307-330 | a use attempt adds or removes no object and only appends to the log |
| `UseInvariant.StopUsingFrame` | Assets/VRTK/Scripts/Interactions/VRTK_InteractUse.cs:87-104 | StopUsing keeps the set of objects; StopUsing, ForceStopUsing and ForceResetUsing only append to the log |
| `UseInvariant.ManageUseListenerFrame` | Assets/VRTK/Scripts/Interactions/VRTK_InteractUse.cs:175-190 | reconciling only appends to the log |
| `UseInvariant.StepFrame` | Assets/VRTK/Scripts/Interactions/VRTK_InteractUse.cs:87-345 | no signal adds or removes an object, and every signal only appends to the log |
| `UseInvariant.StepInv` | Assets/VRTK/Scripts/Interactions/VRTK_InteractUse.cs:87-345 | every signal the component can receive keeps the invariant |
| `UseInvariant.RunInv` | Assets/VRTK/Scripts/Interactions/VRTK_InteractUse.cs:87-345 | after any sequence of signals the invariant still holds, the set of objects is the same and the earlier log is a prefix of the new one |
| `UseInvariant.RunFromInitial` | Assets/VRTK/Scripts/Interactions/VRTK_InteractUse.cs:175-190 | from a fresh component, whatever happens, subscription calls came in press/release pairs for the bound alias only, the subscribed alias is the one the log leaves bound, no stop or unuse came without its open use, and the object in use carries the script |
| `UseScenarios.ManageUseListenerIdempotent` | Assets/VRTK/Scripts/Interactions/VRTK_InteractUse.cs:175-190 | a second reconciliation with no change to the desired button makes no call and changes nothing |
| `UseScenarios.TearDownIdempotent` | Assets/VRTK/Scripts/Interactions/VRTK_InteractUse.cs:175-182 | tearing down twice is tearing down once |
| `UseScenarios.UntouchRestoresOnce` | Assets/VRTK/Scripts/Interactions/VRTK_InteractUse.cs:162-173 | a second untouch changes nothing: the override is restored at most once |
| `UseScenarios.OverrideRoundTrip` | Assets/VRTK/Scripts/Interactions/VRTK_InteractUse.cs:149-190 | from a synced binding, touch, frame, untouch, frame ends with the original button desired and subscribed and nothing saved, with handlers moved to the override and back in whole pairs |
| `UseScenarios.TogglePressStarts` | Assets/VRTK/Scripts/Interactions/VRTK_InteractUse.cs:325-336 | a press on a usable toggle object not in use starts using it and increments its counter by 1 |
| `UseScenarios.TogglePressCounts` | Assets/VRTK/Scripts/Interactions/VRTK_InteractUse.cs:325-336 | a press on the toggle object already in use only increments its counter |
| `UseScenarios.ToggleReleaseKeeps` | Assets/VRTK/Scripts/Interactions/VRTK_InteractUse.cs:338-345 | a release on a toggle object in use whose counter is below 2 changes only the pressed flag |
| `UseScenarios.ToggleReleaseStops` | Assets/VRTK/Scripts/Interactions/VRTK_InteractUse.cs:338-345 | a release on a toggle object in use whose counter is at least 2 stops it: counter 0, nothing in use, StopUsing called, controller shown, one unuse event |
| `UseScenarios.ToggleFirstClick` | Assets/VRTK/Scripts/Interactions/VRTK_InteractUse.cs:325-345 | press then release on a toggle object at counter 0 not in use leaves it in use with counter 1, after one StartUsing call and one use event |
| `UseScenarios.ToggleSecondClick` | Assets/VRTK/Scripts/Interactions/VRTK_InteractUse.cs:325-345 | press then release on the toggle object in use at counter 1 stops it and resets its counter to 0 |
| `UseScenarios.ToggleUseCycle` | Assets/VRTK/Scripts/Interactions/VRTK_InteractUse.cs:325-345 | press, release, press, release on a toggle object starting at counter 0 keeps it in use after the first release and ends with nothing in use, counter 0, and exactly one StartUsing and one StopUsing call |
| `UseScenarios.HoldUseCycle` | Assets/VRTK/Scripts/Interactions/VRTK_InteractUse.cs:325-345 | press then release on a hold-to-use object: the press does not count, the release stops it with counter 0 |
| `UseScenarios.GrabbedObjectUsed` | Assets/VRTK/Scripts/Interactions/VRTK_InteractUse.cs:309-324 | with nothing touched, a press uses the grabbed object when it is usable, accepts this controller and is grabbed |
| `UseScenarios.UngrabbedObjectIgnored` | Assets/VRTK/Scripts/Interactions/VRTK_InteractUse.cs:319-322 | a press on a use-only-if-grabbed object that is not grabbed changes only the pressed flag |
| `UseScenarios.DisallowedObjectDropsCurrentUse` | Assets/VRTK/Scripts/Interactions/VRTK_InteractUse.cs:258-266 | while using `a`, trying a usable `b` that refuses this controller leaves nothing in use, calls and emits nothing, and leaves `a`'s use open |
| `UseScenarios.SwitchWithoutUnuse` | Assets/VRTK/Scripts/Interactions/VRTK_InteractUse.cs:256-274 | while using `a`, using a usable `b` that accepts this controller switches to `b` with no StopUsing call and no unuse event for `a` |
| `Interactions.InteractUse.constructor` | Assets/VRTK/Scripts/Interactions/VRTK_InteractUse.cs:29-44 | the field initialisers: trigger press desired, nothing subscribed or saved, nothing in use; the invariant holds |
| `Interactions.InteractUse.ForceStopUsing` | Assets/VRTK/Scripts/Interactions/VRTK_InteractUse.cs:87-93 | the new state is `UseModel.ForceStopUsing` of the old; nothing in use; a no-op without an object in use |
| `Interactions.InteractUse.ForceResetUsing` | Assets/VRTK/Scripts/Interactions/VRTK_InteractUse.cs:98-104 | the new state is `UseModel.ForceResetUsing` of the old and the scene is not modified; nothing in use |
| `Interactions.InteractUse.AttemptUse` | Assets/VRTK/Scripts/Interactions/VRTK_InteractUse.cs:109-112 | the new state is a use attempt on the old |
| `Interactions.InteractUse.OnEnable` | Assets/VRTK/Scripts/Interactions/VRTK_InteractUse.cs:114-121 | the new state is `UseModel.OnEnable` of the old; if the controller-events component was found, the subscribed alias is the desired one |
| `Interactions.InteractUse.OnDisable` | Assets/VRTK/Scripts/Interactions/VRTK_InteractUse.cs:123-127 | the new state is `UseModel.OnDisable` of the old; nothing in use, and nothing subscribed with the controller-events component |
| `Interactions.InteractUse.Update` | Assets/VRTK/Scripts/Interactions/VRTK_InteractUse.cs:129-132 | the new state is a reconciliation of the old; the subscribed alias is the desired one with the controller-events component |
| `Interactions.InteractUse.ControllerTouchInteractableObject` | Assets/VRTK/Scripts/Interactions/VRTK_InteractUse.cs:149-160 | the new state is `UseModel.ControllerTouchInteractableObject` of the old; the invariant is kept |
| `Interactions.InteractUse.ControllerUntouchInteractableObject` | Assets/VRTK/Scripts/Interactions/VRTK_InteractUse.cs:162-173 | the new state is `UseModel.ControllerUntouchInteractableObject` of the old; the invariant is kept |
| `Interactions.InteractUse.ManageUseListener` | Assets/VRTK/Scripts/Interactions/VRTK_InteractUse.cs:175-190 | the new state is `UseModel.ManageUseListener` of the old; with the controller-events component the subscribed alias is the desired one (`true`) or Undefined (`false`) |
| `Interactions.InteractUse.SetObjectUsingState` | Assets/VRTK/Scripts/Interactions/VRTK_InteractUse.cs:220-230 | the scene's scripts become `UseModel.SetObjectUsingState` of the old ones; nothing else is modified |
| `Interactions.InteractUse.AttemptHaptics` | Assets/VRTK/Scripts/Interactions/VRTK_InteractUse.cs:232-242 | the new state is `UseModel.AttemptHaptics` of the old |
| `Interactions.InteractUse.ToggleControllerVisibility` | Assets/VRTK/Scripts/Interactions/VRTK_InteractUse.cs:244-254 | the new state is `UseModel.ToggleControllerVisibility` of the old |
| `Interactions.InteractUse.UseInteractedObject` | Assets/VRTK/Scripts/Interactions/VRTK_InteractUse.cs:256-274 | the new state is `UseModel.UseInteractedObject` of the old; the invariant is kept |
| `Interactions.InteractUse.UnuseInteractedObject` | Assets/VRTK/Scripts/Interactions/VRTK_InteractUse.cs:276-289 | the new state is `UseModel.UnuseInteractedObject` of the old; the invariant is kept |
| `Interactions.InteractUse.StopUsing` | Assets/VRTK/Scripts/Interactions/VRTK_InteractUse.cs:301-305 | the new state is `UseModel.StopUsing` of the old; the invariant is kept |
| `Interactions.InteractUse.AttemptUseObject` | Assets/VRTK/Scripts/Interactions/VRTK_InteractUse.cs:307-330 | the new state is `UseModel.AttemptUseObject` of the old; the invariant is kept |
| `Interactions.InteractUse.CountPress` | Assets/VRTK/Scripts/Interactions/VRTK_InteractUse.cs:325-328 | the new state is `UseModel.CountPress` of the old |
| `Interactions.InteractUse.DoStartUseObject` | Assets/VRTK/Scripts/Interactions/VRTK_InteractUse.cs:332-336 | the new state is `UseModel.DoStartUseObject` of the old; `IsUseButtonPressed()` is true |
| `Interactions.InteractUse.DoStopUseObject` | Assets/VRTK/Scripts/Interactions/VRTK_InteractUse.cs:338-345 | the new state is `UseModel.DoStopUseObject` of the old; `IsUseButtonPressed()` is false |
| `Interactions.ToggleTwice` | Assets/VRTK/Scripts/Interactions/VRTK_InteractUse.cs:332-345 | through the class: press and release twice on a usable toggle object; it is in use after the first release, and after the second nothing is in use and its counter is 0 |

## Left out

- `UseModel.CountPress`: the counter is an unbounded integer. In the source it is a 32-bit
  `int`, and the increment at line 327 would wrap at 2^31 after that many use attempts
  without a release. Such a run is not modelled.
- `UseModel.IsObjectInteractable`: an object without the interactable-object script is
  never interactable. This is an assumption about the touch component, whose code is not
  part of this model. If it answered true for such an object, the source would dereference
  null at lines 194 and 319.

- Engine lifecycle and lookups: the `GetComponent` calls in `OnEnable`, `GetComponentInParent`,
  and the component lookup in `GetFromGrab`. The touched object, the grabbed object and
  whether the controller-events component exists are parameters. The touch component is
  assumed present, as the component's required-component attributes demand.
- `ManageInteractTouchListener` and C# event dispatch. Subscribing a handler, and emitting
  the use and unuse events, are log entries. An event is recorded as emitted whether or not
  anyone listens. Alias events reach the handlers only for the subscribed alias (`Step`).
- The internals of the interactable-object script: `StartUsing`, `StopUsing`, `IsUsing`,
  `IsGrabbed`, `IsValidInteractableController` and the touch component's
  `IsObjectInteractable`. The four queries are record fields. The two calls are log entries
  and do not change the `isUsing` flag. Only other components change a record (`ObjectChanged`).
- `AttemptHaptics` and `ToggleControllerVisibility`: whether the haptics or appearance
  component exists is not visible here. A request is recorded for the object in use.
- The button-alias enumeration belongs to the controller-events component, which is not
  part of this model. Only `Undefined` and the default `TriggerPress` are named. Every other
  alias is `OtherAlias(index)`, one index per member of the enumeration.
- Unity's "destroyed object compares equal to null" semantics. A game object is null or an
  id; a script is present or absent.
- `ControllerUntouchInteractableObject`: for a touched object without the script, the source
  dereferences null and throws. The model changes nothing and does not model the exception.
- `IsUseButtonPressed` and `GetUsingObject` are plain getters on the class, without
  contracts of their own. The handlers' contracts state the pressed flag through
  `IsUseButtonPressed`.
- `IsObjectUsable` and `IsObjectInteractable` are predicates without contracts of their own.
  They are used in the contracts of `UseInteractedObject` and `UseTarget`.
