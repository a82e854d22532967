/** The use state machine of the VR toolkit's Interact Use component, on values.

    A controller binds a "use" button alias to two handlers (press and release), may
    temporarily swap that alias for the one a touched object asks for, and uses at most one
    object at a time. Game objects are identified by ids; the interactable-object script on
    an object is a record of the flags this component reads and the `usingState` press
    counter it writes. Calls this component makes into other components, and the events it
    emits, are appended to a log so that "called once" and "nothing else" can be stated.
 */
module UseModel {

  datatype Option<T> = None | Some(value: T)

  /** Button aliases of the controller-events component. Only the two this component names
      are spelled out; every other member of the enumeration is `OtherAlias` with its own
      index, so distinct values are distinct aliases. */
  datatype ButtonAlias = Undefined | TriggerPress | OtherAlias(index: nat)

  /** Identifies a game object. */
  type ObjectId = nat

  /** The interactable-object script on a game object, as this component sees it. */
  datatype InteractableObject = InteractableObject(
    isUsable: bool,
    holdButtonToUse: bool,
    useOverrideButton: ButtonAlias,
    useOnlyIfGrabbed: bool,
    isGrabbed: bool,          // what IsGrabbed() answers
    isUsing: bool,            // what IsUsing() answers
    isInteractable: bool,     // what the touch component's IsObjectInteractable answers
    allowsController: bool,   // what IsValidInteractableController answers for this controller
    usingState: int)

  /** The scripts of the scene's game objects; an id that is not a key is a game object
      without the script. */
  type Objects = map<ObjectId, InteractableObject>

  /** Calls into other components and events this component emits. `onPress` tells the
      press handler (DoStartUseObject) from the release handler (DoStopUseObject). */
  datatype Event =
    | SubscribeCall(alias: ButtonAlias, onPress: bool)
    | UnsubscribeCall(alias: ButtonAlias, onPress: bool)
    | StartUsingCall(obj: ObjectId)
    | StopUsingCall(obj: ObjectId)
    | ControllerVisibility(visible: bool, obj: ObjectId)
    | HapticsOnUse(obj: ObjectId)
    | UseEvent(obj: ObjectId)
    | UnuseEvent(obj: ObjectId)

  /** The component's fields, the scene's scripts and the log of calls and events so far.
      `hasControllerEvents` says whether the controller-events component was found. */
  datatype State = State(
    useButton: ButtonAlias,
    subscribedUseButton: ButtonAlias,
    savedUseButton: ButtonAlias,
    usePressed: bool,
    usingObject: Option<ObjectId>,
    hasControllerEvents: bool,
    objects: Objects,
    log: seq<Event>)

  /** The field initialisers: use the trigger press, nothing subscribed or saved, nothing in
      use; the controller-events component is looked up only on enable. */
  function Initial(objects: Objects): (r: State)
    ensures r.objects == objects && r.log == []
    ensures r.usingObject == None && !r.usePressed && !r.hasControllerEvents
    ensures r.subscribedUseButton == Undefined && r.savedUseButton == Undefined
    ensures r.useButton == TriggerPress
  {
    State(TriggerPress, Undefined, Undefined, false, None, false, objects, [])
  }

  function SubscribePair(alias: ButtonAlias): seq<Event>
  {
    [SubscribeCall(alias, true), SubscribeCall(alias, false)]
  }

  function UnsubscribePair(alias: ButtonAlias): seq<Event>
  {
    [UnsubscribeCall(alias, true), UnsubscribeCall(alias, false)]
  }

  /** What using an object calls and emits, in order: its StartUsing, hiding the
      controller, haptics, the use event. */
  function UseCalls(id: ObjectId): seq<Event>
  {
    [StartUsingCall(id), ControllerVisibility(false, id), HapticsOnUse(id), UseEvent(id)]
  }

  // ---------------------------------------------------------------------------------------
  // Null-safe queries on a game object's script

  predicate IsObjectInteractable(objects: Objects, id: ObjectId)
  {
    id in objects && objects[id].isInteractable
  }

  predicate IsObjectUsable(objects: Objects, id: ObjectId)
  {
    IsObjectInteractable(objects, id) && objects[id].isUsable
  }

  /** Hold-to-use flag of a possibly null object; false without a script. */
  predicate IsObjectHoldOnUse(objects: Objects, obj: Option<ObjectId>)
    ensures IsObjectHoldOnUse(objects, obj) ==> obj.Some? && obj.value in objects
    ensures obj.None? ==> !IsObjectHoldOnUse(objects, obj)
  {
    obj.Some? && obj.value in objects && objects[obj.value].holdButtonToUse
  }

  /** The press counter of a possibly null object; 0 without an object or a script. */
  function GetObjectUsingState(objects: Objects, obj: Option<ObjectId>): (r: int)
    ensures obj.None? || obj.value !in objects ==> r == 0
  {
    if obj.Some? && obj.value in objects then objects[obj.value].usingState else 0
  }

  /** Writes the press counter of a possibly null object; a no-op without an object or a
      script. Reading the counter back gives what was written; nothing else changes. */
  function SetObjectUsingState(objects: Objects, obj: Option<ObjectId>, value: int): (r: Objects)
    ensures r.Keys == objects.Keys
    ensures GetObjectUsingState(r, obj) == if obj.Some? && obj.value in objects then value else 0
    ensures forall id :: id in objects && obj.Some? && id == obj.value ==>
              r[id] == objects[id].(usingState := value)
    ensures forall id :: id in objects && obj != Some(id) ==> r[id] == objects[id]
  {
    if obj.Some? && obj.value in objects then
      objects[obj.value := objects[obj.value].(usingState := value)]
    else
      objects
  }

  // ---------------------------------------------------------------------------------------
  // Use-button subscription

  /** With `state`, makes the subscribed alias the desired one; without, tears the
      subscription down. Both need the controller-events component. The handler pair is
      unsubscribed from the old alias and subscribed to the new one exactly when the
      binding changes, and nothing but the binding and the log changes. */
  function ManageUseListener(s: State, state: bool): (r: State)
    ensures r == s.(subscribedUseButton := r.subscribedUseButton, log := r.log)
    ensures s.hasControllerEvents && state ==> r.subscribedUseButton == s.useButton
    ensures s.hasControllerEvents && !state ==> r.subscribedUseButton == Undefined
    ensures !s.hasControllerEvents ==> r == s
    ensures state && s.subscribedUseButton == s.useButton ==> r == s
    ensures r.log == s.log
              + (if r.subscribedUseButton != s.subscribedUseButton && s.subscribedUseButton != Undefined
                 then UnsubscribePair(s.subscribedUseButton) else [])
              + (if r.subscribedUseButton != s.subscribedUseButton && r.subscribedUseButton != Undefined
                 then SubscribePair(r.subscribedUseButton) else [])
  {
    var s1 :=
      if s.hasControllerEvents && s.subscribedUseButton != Undefined
         && (!state || s.useButton != s.subscribedUseButton)
      then s.(subscribedUseButton := Undefined,
              log := s.log + UnsubscribePair(s.subscribedUseButton))
      else s;
    if s1.hasControllerEvents && state && s1.useButton != Undefined
       && s1.useButton != s1.subscribedUseButton
    then s1.(subscribedUseButton := s1.useButton, log := s1.log + SubscribePair(s1.useButton))
    else s1
  }

  // ---------------------------------------------------------------------------------------
  // Per-object button override while touched

  predicate OverridesUseButton(objects: Objects, target: Option<ObjectId>)
  {
    target.Some? && target.value in objects && objects[target.value].useOverrideButton != Undefined
  }

  /** Touching an object that asks for its own use button saves the subscribed alias and
      makes the object's button the desired one; any other touch changes nothing. */
  function ControllerTouchInteractableObject(s: State, target: Option<ObjectId>): (r: State)
    ensures OverridesUseButton(s.objects, target) ==>
              r == s.(savedUseButton := s.subscribedUseButton,
                      useButton := s.objects[target.value].useOverrideButton)
    ensures !OverridesUseButton(s.objects, target) ==> r == s
  {
    if target.Some? && target.value in s.objects then
      var script := s.objects[target.value];
      if script.useOverrideButton != Undefined then
        s.(savedUseButton := s.subscribedUseButton, useButton := script.useOverrideButton)
      else s
    else s
  }

  /** Untouching restores the saved alias once and clears it, but only when the object is
      not in use and an alias was saved. An untouched game object without the script makes
      the component's handler dereference null; that call changes nothing here. */
  function ControllerUntouchInteractableObject(s: State, target: Option<ObjectId>): (r: State)
    ensures r == s || r == s.(useButton := s.savedUseButton, savedUseButton := Undefined)
    ensures r != s <==> target.Some? && target.value in s.objects
                        && !s.objects[target.value].isUsing && s.savedUseButton != Undefined
    ensures r.savedUseButton == Undefined || r.savedUseButton == s.savedUseButton
  {
    if target.Some? && target.value in s.objects then
      if !s.objects[target.value].isUsing && s.savedUseButton != Undefined then
        s.(useButton := s.savedUseButton, savedUseButton := Undefined)
      else s
    else s
  }

  // ---------------------------------------------------------------------------------------
  // Using and unusing

  /** Hides (or shows) the controller for the object in use, if any. */
  function ToggleControllerVisibility(s: State, visible: bool): (r: State)
    ensures r == s.(log := r.log)
    ensures s.usingObject.None? ==> r == s
    ensures s.usingObject.Some? ==> r.log == s.log + [ControllerVisibility(visible, s.usingObject.value)]
  {
    if s.usingObject.Some? then s.(log := s.log + [ControllerVisibility(visible, s.usingObject.value)])
    else s
  }

  /** Asks for use haptics for the object in use, if any. */
  function AttemptHaptics(s: State): (r: State)
    ensures r == s.(log := r.log)
    ensures s.usingObject.None? ==> r == s
    ensures s.usingObject.Some? ==> r.log == s.log + [HapticsOnUse(s.usingObject.value)]
  {
    if s.usingObject.Some? then s.(log := s.log + [HapticsOnUse(s.usingObject.value)]) else s
  }

  /** Starts using a touched object: nothing happens when it is already the object in use
      or is not usable. When the object does not accept this controller, the controller
      ends up using nothing (whatever it used before is dropped without being unused) and
      nothing is called or emitted. Otherwise it uses the object, whose StartUsing is
      called once, and one use event is emitted. */
  function UseInteractedObject(s: State, touched: ObjectId): (r: State)
    ensures r == s.(usingObject := r.usingObject, log := r.log)
    ensures s.usingObject == Some(touched) || !IsObjectUsable(s.objects, touched) ==> r == s
    ensures s.usingObject != Some(touched) && IsObjectUsable(s.objects, touched)
            && !s.objects[touched].allowsController ==>
              r.usingObject == None && r.log == s.log
    ensures s.usingObject != Some(touched) && IsObjectUsable(s.objects, touched)
            && s.objects[touched].allowsController ==>
              r.usingObject == Some(touched) && r.log == s.log + UseCalls(touched)
  {
    if s.usingObject != Some(touched) && IsObjectUsable(s.objects, touched) then
      var s1 := s.(usingObject := Some(touched));
      if !s1.objects[touched].allowsController then
        s1.(usingObject := None)
      else
        var s2 := s1.(log := s1.log + [StartUsingCall(touched)]);
        var s3 := AttemptHaptics(ToggleControllerVisibility(s2, false));
        s3.(log := s3.log + [UseEvent(touched)])
    else s
  }

  /** Stops using the object in use, if any: its StopUsing is called only for a complete
      stop (and only when it has the script), the controller is shown again, one unuse
      event is emitted, and the controller then uses nothing. Counters and bindings are
      untouched. */
  function UnuseInteractedObject(s: State, completeStop: bool): (r: State)
    ensures r == s.(usingObject := None, log := r.log)
    ensures s.usingObject.None? ==> r == s
    ensures s.usingObject.Some? ==>
              r.log == s.log
                + (if completeStop && s.usingObject.value in s.objects
                   then [StopUsingCall(s.usingObject.value)] else [])
                + [ControllerVisibility(true, s.usingObject.value), UnuseEvent(s.usingObject.value)]
  {
    if s.usingObject.Some? then
      var s1 :=
        if s.usingObject.value in s.objects && completeStop
        then s.(log := s.log + [StopUsingCall(s.usingObject.value)])
        else s;
      var s2 := ToggleControllerVisibility(s1, true);
      s2.(log := s2.log + [UnuseEvent(s.usingObject.value)], usingObject := None)
    else s
  }

  /** Resets the counter of the object in use to 0 and stops it completely: its StopUsing
      is called once, one unuse event is emitted, and the controller uses nothing. Other
      objects, the bindings and the press flag do not change. */
  function StopUsing(s: State): (r: State)
    ensures r == s.(usingObject := None, objects := r.objects, log := r.log)
    ensures r.objects.Keys == s.objects.Keys
    ensures GetObjectUsingState(r.objects, s.usingObject) == 0
    ensures forall id :: id in s.objects && s.usingObject != Some(id) ==> r.objects[id] == s.objects[id]
    ensures s.usingObject.Some? && s.usingObject.value in s.objects ==>
              r.objects[s.usingObject.value] == s.objects[s.usingObject.value].(usingState := 0)
              && r.log == s.log + [StopUsingCall(s.usingObject.value),
                                   ControllerVisibility(true, s.usingObject.value),
                                   UnuseEvent(s.usingObject.value)]
    ensures s.usingObject.Some? && s.usingObject.value !in s.objects ==>
              r.objects == s.objects
              && r.log == s.log + [ControllerVisibility(true, s.usingObject.value), UnuseEvent(s.usingObject.value)]
    ensures s.usingObject.None? ==> r == s
  {
    var s1 := s.(objects := SetObjectUsingState(s.objects, s.usingObject, 0));
    UnuseInteractedObject(s1, true)
  }

  /** Stops the object in use completely; nothing happens when nothing is in use. */
  function ForceStopUsing(s: State): (r: State)
    ensures r.usingObject == None
    ensures s.usingObject.None? ==> r == s
    ensures s.usingObject.Some? ==> r == StopUsing(s)
  {
    if s.usingObject.Some? then StopUsing(s) else s
  }

  /** Lets go of the object in use without stopping it: its StopUsing is not called and its
      counter is kept, only the controller is shown and an unuse event is emitted.
      Nothing happens when nothing is in use. */
  function ForceResetUsing(s: State): (r: State)
    ensures r == s.(usingObject := None, log := r.log)
    ensures s.usingObject.None? ==> r == s
    ensures s.usingObject.Some? ==>
              r.log == s.log + [ControllerVisibility(true, s.usingObject.value),
                                UnuseEvent(s.usingObject.value)]
  {
    if s.usingObject.Some? then UnuseInteractedObject(s, false) else s
  }

  /** The object a use attempt goes for: the touched one, else the grabbed one, provided it
      is interactable and not one that may only be used while grabbed and is not. */
  function UseTarget(objects: Objects, touched: Option<ObjectId>, grabbed: Option<ObjectId>): (t: Option<ObjectId>)
    ensures t.Some? ==> IsObjectInteractable(objects, t.value)
                        && (t == touched || (touched.None? && t == grabbed))
    ensures t.Some? ==> !(objects[t.value].useOnlyIfGrabbed && !objects[t.value].isGrabbed)
    ensures var c := if touched.None? then grabbed else touched;
            t.None? <==> (c.None? || !IsObjectInteractable(objects, c.value)
                          || (objects[c.value].useOnlyIfGrabbed && !objects[c.value].isGrabbed))
  {
    var candidate := if touched.None? then grabbed else touched;
    if candidate.Some? && IsObjectInteractable(objects, candidate.value)
       && !(objects[candidate.value].useOnlyIfGrabbed && !objects[candidate.value].isGrabbed)
    then candidate
    else None
  }

  /** Tries to use the touched (else grabbed) object. Without a target that may be used,
      nothing changes. Otherwise the object is used as UseInteractedObject says, and then
      the counter of whatever object is in use goes up by exactly one, unless that object is
      hold-to-use; no other counter and no binding changes. */
  function AttemptUseObject(s: State, touched: Option<ObjectId>, grabbed: Option<ObjectId>): (r: State)
    ensures r == s.(usingObject := r.usingObject, objects := r.objects, log := r.log)
    ensures r.objects.Keys == s.objects.Keys
    ensures UseTarget(s.objects, touched, grabbed).None? ==> r == s
    ensures UseTarget(s.objects, touched, grabbed).Some? ==>
              var u := UseInteractedObject(s, UseTarget(s.objects, touched, grabbed).value);
              r.usingObject == u.usingObject && r.log == u.log
    ensures forall id :: id in s.objects && (r.usingObject != Some(id) || s.objects[id].holdButtonToUse) ==>
              r.objects[id] == s.objects[id]
    ensures UseTarget(s.objects, touched, grabbed).Some? && r.usingObject.Some?
            && r.usingObject.value in s.objects && !s.objects[r.usingObject.value].holdButtonToUse ==>
              r.objects[r.usingObject.value]
                == s.objects[r.usingObject.value].(usingState := s.objects[r.usingObject.value].usingState + 1)
  {
    var target := UseTarget(s.objects, touched, grabbed);
    if target.Some? then CountPress(UseInteractedObject(s, target.value)) else s
  }

  /** After a use attempt, the object in use (whichever it is) counts one more press
      unless it is hold-to-use. */
  function CountPress(s: State): (r: State)
    ensures r == s.(objects := r.objects)
    ensures r.objects.Keys == s.objects.Keys
    ensures forall id :: id in s.objects && (s.usingObject != Some(id) || s.objects[id].holdButtonToUse) ==>
              r.objects[id] == s.objects[id]
    ensures s.usingObject.Some? && s.usingObject.value in s.objects && !s.objects[s.usingObject.value].holdButtonToUse ==>
              r.objects[s.usingObject.value]
                == s.objects[s.usingObject.value].(usingState := s.objects[s.usingObject.value].usingState + 1)
  {
    if s.usingObject.Some? && !IsObjectHoldOnUse(s.objects, s.usingObject) then
      s.(objects := SetObjectUsingState(s.objects, s.usingObject, GetObjectUsingState(s.objects, s.usingObject) + 1))
    else s
  }

  /** The press handler: the use button is now pressed, and a use is attempted. */
  function DoStartUseObject(s: State, touched: Option<ObjectId>, grabbed: Option<ObjectId>): (r: State)
    ensures r.usePressed
    ensures r.(usePressed := s.usePressed) == AttemptUseObject(s, touched, grabbed)
  {
    AttemptUseObject(s.(usePressed := true), touched, grabbed)
  }

  /** The release handler: the use button is no longer pressed, and the object in use is
      stopped exactly when it is hold-to-use or its counter has reached 2; otherwise
      nothing else changes. */
  function DoStopUseObject(s: State): (r: State)
    ensures !r.usePressed
    ensures IsObjectHoldOnUse(s.objects, s.usingObject) || GetObjectUsingState(s.objects, s.usingObject) >= 2 ==>
              r.usingObject == None && r.(usePressed := s.usePressed) == StopUsing(s)
    ensures !(IsObjectHoldOnUse(s.objects, s.usingObject) || GetObjectUsingState(s.objects, s.usingObject) >= 2) ==>
              r == s.(usePressed := false)
  {
    var s1 :=
      if IsObjectHoldOnUse(s.objects, s.usingObject) || GetObjectUsingState(s.objects, s.usingObject) >= 2
      then StopUsing(s)
      else s;
    s1.(usePressed := false)
  }

  // ---------------------------------------------------------------------------------------
  // Component lifecycle

  /** Enabling looks up the controller-events component (found or not) and reconciles the
      subscription. */
  function OnEnable(s: State, eventsFound: bool): (r: State)
    ensures r.hasControllerEvents == eventsFound
    ensures eventsFound ==> r.subscribedUseButton == r.useButton
    ensures r.usingObject == s.usingObject && r.objects == s.objects && r.useButton == s.useButton
    ensures r == s.(hasControllerEvents := eventsFound, subscribedUseButton := r.subscribedUseButton, log := r.log)
    ensures !eventsFound ==> r == s.(hasControllerEvents := false)
    ensures r.log == s.log
              + (if eventsFound && r.subscribedUseButton != s.subscribedUseButton && s.subscribedUseButton != Undefined
                 then UnsubscribePair(s.subscribedUseButton) else [])
              + (if eventsFound && r.subscribedUseButton != s.subscribedUseButton && r.subscribedUseButton != Undefined
                 then SubscribePair(r.subscribedUseButton) else [])
  {
    ManageUseListener(s.(hasControllerEvents := eventsFound), true)
  }

  /** Disabling stops the object in use and tears the subscription down: afterwards nothing
      is in use and, with the controller-events component, nothing is subscribed. */
  function OnDisable(s: State): (r: State)
    ensures r.usingObject == None
    ensures s.hasControllerEvents ==> r.subscribedUseButton == Undefined
    ensures !s.hasControllerEvents ==> r.subscribedUseButton == s.subscribedUseButton
    ensures GetObjectUsingState(r.objects, s.usingObject) == 0
    ensures r.useButton == s.useButton && r.savedUseButton == s.savedUseButton && r.usePressed == s.usePressed
    ensures r.hasControllerEvents == s.hasControllerEvents && r.objects.Keys == s.objects.Keys
    ensures s.usingObject.Some? && s.usingObject.value in s.objects ==>
              r.objects[s.usingObject.value] == s.objects[s.usingObject.value].(usingState := 0)
    ensures forall id :: id in s.objects && s.usingObject != Some(id) ==> r.objects[id] == s.objects[id]
    ensures r.log == s.log
              + (if s.usingObject.Some? && s.usingObject.value in s.objects
                 then [StopUsingCall(s.usingObject.value)] else [])
              + (if s.usingObject.Some?
                 then [ControllerVisibility(true, s.usingObject.value), UnuseEvent(s.usingObject.value)]
                 else [])
              + (if s.hasControllerEvents && s.subscribedUseButton != Undefined
                 then UnsubscribePair(s.subscribedUseButton) else [])
  {
    ManageUseListener(ForceStopUsing(s), false)
  }
}
