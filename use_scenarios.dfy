/** Short sequences of calls and what they leave behind: reconciling twice, a touch/untouch
    override round trip, toggle and hold use cycles, and the controller that drops an
    object it was using without unusing it. */
module UseScenarios {
  import opened UseModel
  import opened UseInvariant

  /** A second reconciliation without a change of the desired button makes no call. */
  lemma ManageUseListenerIdempotent(s: State)
    ensures var r := ManageUseListener(s, true);
            ManageUseListener(r, true) == r
  {
  }

  /** Tearing down twice is tearing down once. */
  lemma TearDownIdempotent(s: State)
    ensures var r := ManageUseListener(s, false);
            ManageUseListener(r, false) == r
  {
  }

  /** The override is restored at most once: a second untouch changes nothing. */
  lemma UntouchRestoresOnce(s: State, target: Option<ObjectId>)
    ensures var r := ControllerUntouchInteractableObject(s, target);
            ControllerUntouchInteractableObject(r, target) == r
  {
  }

  /** With the binding in sync, touching an object with its own use button, letting a frame
      pass, untouching it and letting another frame pass ends with the original button
      desired and subscribed and nothing saved; the handlers moved to the object's button
      and back, each move a whole unsubscribe/subscribe pair. */
  lemma OverrideRoundTrip(s: State, id: ObjectId)
    requires s.hasControllerEvents && s.useButton != Undefined && s.subscribedUseButton == s.useButton
    requires id in s.objects && !s.objects[id].isUsing
    requires s.objects[id].useOverrideButton != Undefined
    ensures var t := ManageUseListener(ControllerTouchInteractableObject(s, Some(id)), true);
            var u := ManageUseListener(ControllerUntouchInteractableObject(t, Some(id)), true);
            var over := s.objects[id].useOverrideButton;
            && t.useButton == over && t.subscribedUseButton == over && t.savedUseButton == s.useButton
            && u == s.(savedUseButton := Undefined, log := u.log)
            && u.log == s.log
                 + (if over != s.useButton
                    then UnsubscribePair(s.useButton) + SubscribePair(over)
                         + UnsubscribePair(over) + SubscribePair(s.useButton)
                    else [])
  {
    var over := s.objects[id].useOverrideButton;
    var t0 := ControllerTouchInteractableObject(s, Some(id));
    var t := ManageUseListener(t0, true);
    var u0 := ControllerUntouchInteractableObject(t, Some(id));
    var u := ManageUseListener(u0, true);
    assert u0 == t.(useButton := s.useButton, savedUseButton := Undefined);
    if over != s.useButton {
      assert t.log == s.log + UnsubscribePair(s.useButton) + SubscribePair(over);
      assert u.log == t.log + UnsubscribePair(over) + SubscribePair(s.useButton);
      assert u.log == s.log + (UnsubscribePair(s.useButton) + SubscribePair(over)
                               + UnsubscribePair(over) + SubscribePair(s.useButton));
    }
  }

  /** A press on a usable toggle object not yet in use starts using it and counts one. */
  lemma TogglePressStarts(s: State, id: ObjectId)
    requires s.usingObject != Some(id)
    requires IsObjectUsable(s.objects, id) && s.objects[id].allowsController
    requires !s.objects[id].holdButtonToUse
    requires !s.objects[id].useOnlyIfGrabbed || s.objects[id].isGrabbed
    ensures DoStartUseObject(s, Some(id), None)
            == s.(usePressed := true, usingObject := Some(id), log := s.log + UseCalls(id),
                  objects := s.objects[id := s.objects[id].(usingState := s.objects[id].usingState + 1)])
  {
    assert UseTarget(s.objects, Some(id), None) == Some(id);
  }

  /** A press on the toggle object already in use only counts one more. */
  lemma TogglePressCounts(s: State, id: ObjectId)
    requires s.usingObject == Some(id)
    requires IsObjectInteractable(s.objects, id) && !s.objects[id].holdButtonToUse
    requires !s.objects[id].useOnlyIfGrabbed || s.objects[id].isGrabbed
    ensures DoStartUseObject(s, Some(id), None)
            == s.(usePressed := true,
                  objects := s.objects[id := s.objects[id].(usingState := s.objects[id].usingState + 1)])
  {
    assert UseTarget(s.objects, Some(id), None) == Some(id);
  }

  /** A release after the first press on a toggle object leaves it in use. */
  lemma ToggleReleaseKeeps(s: State, id: ObjectId)
    requires s.usingObject == Some(id) && id in s.objects
    requires !s.objects[id].holdButtonToUse && s.objects[id].usingState < 2
    ensures DoStopUseObject(s) == s.(usePressed := false)
  {
    assert GetObjectUsingState(s.objects, s.usingObject) < 2;
  }

  /** A release after the second press on the toggle object in use stops it: its counter
      goes back to 0 and it is stopped, shown and unused. */
  lemma ToggleReleaseStops(s: State, id: ObjectId)
    requires s.usingObject == Some(id) && id in s.objects
    requires !s.objects[id].holdButtonToUse && s.objects[id].usingState >= 2
    ensures DoStopUseObject(s)
            == s.(usePressed := false, usingObject := None,
                  objects := s.objects[id := s.objects[id].(usingState := 0)],
                  log := s.log + [StopUsingCall(id), ControllerVisibility(true, id), UnuseEvent(id)])
  {
    assert GetObjectUsingState(s.objects, s.usingObject) >= 2;
  }

  /** First press and release on a toggle object not in use: it is in use, counted once. */
  lemma ToggleFirstClick(s: State, id: ObjectId)
    requires s.usingObject != Some(id)
    requires IsObjectUsable(s.objects, id) && s.objects[id].allowsController
    requires !s.objects[id].holdButtonToUse
    requires !s.objects[id].useOnlyIfGrabbed || s.objects[id].isGrabbed
    requires s.objects[id].usingState == 0
    ensures DoStopUseObject(DoStartUseObject(s, Some(id), None))
            == s.(usePressed := false, usingObject := Some(id), log := s.log + UseCalls(id),
                  objects := s.objects[id := s.objects[id].(usingState := 1)])
  {
    TogglePressStarts(s, id);
    var s1 := DoStartUseObject(s, Some(id), None);
    assert s1.objects[id].usingState == 1;
    ToggleReleaseKeeps(s1, id);
  }

  /** Second press and release on the toggle object in use, counted once: it is stopped and
      its counter is back to 0. */
  lemma ToggleSecondClick(s: State, id: ObjectId)
    requires s.usingObject == Some(id)
    requires IsObjectInteractable(s.objects, id) && !s.objects[id].holdButtonToUse
    requires !s.objects[id].useOnlyIfGrabbed || s.objects[id].isGrabbed
    requires s.objects[id].usingState == 1
    ensures DoStopUseObject(DoStartUseObject(s, Some(id), None))
            == s.(usePressed := false, usingObject := None,
                  objects := s.objects[id := s.objects[id].(usingState := 0)],
                  log := s.log + [StopUsingCall(id), ControllerVisibility(true, id), UnuseEvent(id)])
  {
    TogglePressCounts(s, id);
    var o := s.objects[id];
    var s1 := DoStartUseObject(s, Some(id), None);
    assert s1 == s.(usePressed := true, objects := s.objects[id := o.(usingState := 2)]);
    ToggleReleaseStops(s1, id);
    assert s1.objects[id].(usingState := 0) == o.(usingState := 0);
    UpdateTwice(s.objects, id, o.(usingState := 2), o.(usingState := 0));
  }

  /** A second write to the same script replaces the first. */
  lemma UpdateTwice(m: Objects, id: ObjectId, a: InteractableObject, b: InteractableObject)
    ensures m[id := a][id := b] == m[id := b]
    ensures id in m && m[id] == b ==> m[id := b] == m
  {
  }

  /** Toggle semantics: on a usable toggle object that accepts this controller and whose
      counter is 0, press, release, press, release. After the first release the object is
      still in use with its counter at 1; after the second it is no longer used, its counter
      is back to 0, and in all its StartUsing and its StopUsing were each called once. */
  lemma ToggleUseCycle(s: State, id: ObjectId)
    requires s.usingObject == None
    requires IsObjectUsable(s.objects, id) && s.objects[id].allowsController
    requires !s.objects[id].holdButtonToUse
    requires !s.objects[id].useOnlyIfGrabbed || s.objects[id].isGrabbed
    requires s.objects[id].usingState == 0
    ensures var s1 := DoStartUseObject(s, Some(id), None);
            var s2 := DoStopUseObject(s1);
            var s3 := DoStartUseObject(s2, Some(id), None);
            var s4 := DoStopUseObject(s3);
            && s2.usingObject == Some(id) && GetObjectUsingState(s2.objects, Some(id)) == 1
            && s4.usingObject == None && s4.objects == s.objects && !s4.usePressed
            && s4.log == s.log + UseCalls(id)
                 + [StopUsingCall(id), ControllerVisibility(true, id), UnuseEvent(id)]
  {
    ToggleFirstClick(s, id);
    var s2 := DoStopUseObject(DoStartUseObject(s, Some(id), None));
    var o := s.objects[id];
    assert s2.objects == s.objects[id := o.(usingState := 1)];
    assert s2.objects[id].(usingState := 0) == o;
    ToggleSecondClick(s2, id);
    UpdateTwice(s.objects, id, o.(usingState := 1), o);
  }

  /** Hold semantics: on a usable hold-to-use object, press then release. The press does
      not count, the release stops the object and resets its counter. */
  lemma HoldUseCycle(s: State, id: ObjectId)
    requires s.usingObject == None
    requires IsObjectUsable(s.objects, id) && s.objects[id].allowsController
    requires s.objects[id].holdButtonToUse
    requires !s.objects[id].useOnlyIfGrabbed || s.objects[id].isGrabbed
    ensures var s1 := DoStartUseObject(s, Some(id), None);
            var s2 := DoStopUseObject(s1);
            && s1.usingObject == Some(id) && s1.objects == s.objects
            && s2.usingObject == None && GetObjectUsingState(s2.objects, Some(id)) == 0
            && s2.log == s.log + UseCalls(id)
                 + [StopUsingCall(id), ControllerVisibility(true, id), UnuseEvent(id)]
  {
  }

  /** With nothing touched, a press uses the grabbed object: a usable object that accepts
      this controller and is grabbed becomes the object in use. */
  lemma GrabbedObjectUsed(s: State, id: ObjectId)
    requires s.usingObject != Some(id)
    requires IsObjectUsable(s.objects, id) && s.objects[id].allowsController && s.objects[id].isGrabbed
    ensures var r := DoStartUseObject(s, None, Some(id));
            r.usingObject == Some(id) && r.log == s.log + UseCalls(id)
  {
  }

  /** A use-only-if-grabbed object that is not grabbed cannot be used: a press changes
      nothing but the pressed flag. */
  lemma UngrabbedObjectIgnored(s: State, id: ObjectId)
    requires id in s.objects && s.objects[id].useOnlyIfGrabbed && !s.objects[id].isGrabbed
    ensures DoStartUseObject(s, Some(id), None) == s.(usePressed := true)
  {
  }

  /** While using `a`, an attempt on a usable `b` that does not accept this controller
      leaves the controller using nothing, yet `a` was neither stopped nor unused: the log
      is unchanged and still has `a`'s use open. */
  lemma DisallowedObjectDropsCurrentUse(s: State, a: ObjectId, b: ObjectId)
    requires Inv(s) && s.usingObject == Some(a) && a != b
    requires IsObjectUsable(s.objects, b) && !s.objects[b].allowsController
    ensures var r := UseInteractedObject(s, b);
            r.usingObject == None && r.log == s.log && AuditLog(r.log).use == InUse(a)
  {
  }

  /** While using `a`, using another object `b` that accepts this controller switches to
      `b` without stopping or unusing `a`. */
  lemma SwitchWithoutUnuse(s: State, a: ObjectId, b: ObjectId)
    requires Inv(s) && s.usingObject == Some(a) && a != b
    requires IsObjectUsable(s.objects, b) && s.objects[b].allowsController
    ensures var r := UseInteractedObject(s, b);
            && r.usingObject == Some(b) && r.log == s.log + UseCalls(b)
            && StopUsingCall(a) !in r.log[|s.log|..] && UnuseEvent(a) !in r.log[|s.log|..]
  {
    var r := UseInteractedObject(s, b);
    assert r.log[|s.log|..] == UseCalls(b);
  }
}
