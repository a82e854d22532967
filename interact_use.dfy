/** The Interact Use component as a class: its fields are updated in place, the scene's
    interactable-object scripts (whose press counters it writes) live in a shared `Scene`,
    and every method is proved to do what the matching function of `UseModel` says, while
    keeping the invariant of `UseInvariant`. The log of calls and events is ghost. */
module Interactions {
  import opened UseModel
  import opened UseInvariant
  import UseScenarios

  /** The scene's game objects and their interactable-object scripts, shared by every
      controller. */
  class Scene {
    var objects: Objects

    constructor(objects: Objects)
      ensures this.objects == objects
    {
      this.objects := objects;
    }
  }

  class InteractUse {
    var useButton: ButtonAlias
    var subscribedUseButton: ButtonAlias
    var savedUseButton: ButtonAlias
    var usePressed: bool
    var usingObject: Option<ObjectId>
    var hasControllerEvents: bool
    const scene: Scene
    ghost var log: seq<Event>

    /** The component's state as a value of the model. */
    ghost function Snapshot(): State
      reads this, scene
    {
      State(useButton, subscribedUseButton, savedUseButton, usePressed, usingObject,
            hasControllerEvents, scene.objects, log)
    }

    ghost predicate Valid()
      reads this, scene
    {
      Inv(Snapshot())
    }

    constructor(scene: Scene)
      ensures this.scene == scene
      ensures Snapshot() == Initial(scene.objects)
      ensures Valid()
    {
      useButton := TriggerPress;
      subscribedUseButton := Undefined;
      savedUseButton := Undefined;
      usePressed := false;
      usingObject := None;
      hasControllerEvents := false;
      this.scene := scene;
      log := [];
      new;
      InitialInv(scene.objects);
    }

    function IsUseButtonPressed(): bool
      reads this
    {
      usePressed
    }

    function GetUsingObject(): Option<ObjectId>
      reads this
    {
      usingObject
    }

    method ForceStopUsing()
      requires Valid()
      modifies this, scene
      ensures Valid()
      ensures Snapshot() == UseModel.ForceStopUsing(old(Snapshot()))
      ensures usingObject == None
      ensures old(usingObject).None? ==> Snapshot() == old(Snapshot())
    {
      if usingObject.Some? {
        StopUsing();
      }
    }

    method ForceResetUsing()
      requires Valid()
      modifies this
      ensures Valid()
      ensures Snapshot() == UseModel.ForceResetUsing(old(Snapshot()))
      ensures usingObject == None
      ensures old(usingObject).None? ==> Snapshot() == old(Snapshot())
    {
      ghost var s0 := Snapshot();
      if usingObject.Some? {
        UnuseInteractedObject(false);
      }
      StopUsingInv(s0);
    }

    /** Uses the touched (else grabbed) object without a button press. */
    method AttemptUse(touched: Option<ObjectId>, grabbed: Option<ObjectId>)
      requires Valid()
      modifies this, scene
      ensures Valid()
      ensures Snapshot() == UseModel.AttemptUseObject(old(Snapshot()), touched, grabbed)
    {
      AttemptUseObject(touched, grabbed);
    }

    /** `eventsFound` says whether the controller-events component was found. */
    method OnEnable(eventsFound: bool)
      requires Valid()
      modifies this
      ensures Valid()
      ensures Snapshot() == UseModel.OnEnable(old(Snapshot()), eventsFound)
      ensures eventsFound ==> subscribedUseButton == useButton
    {
      hasControllerEvents := eventsFound;
      ManageUseListener(true);
    }

    method OnDisable()
      requires Valid()
      modifies this, scene
      ensures Valid()
      ensures Snapshot() == UseModel.OnDisable(old(Snapshot()))
      ensures usingObject == None
      ensures hasControllerEvents ==> subscribedUseButton == Undefined
    {
      ForceStopUsing();
      ManageUseListener(false);
    }

    /** The per-frame reconciliation of the subscription. */
    method Update()
      requires Valid()
      modifies this
      ensures Valid()
      ensures Snapshot() == UseModel.ManageUseListener(old(Snapshot()), true)
      ensures hasControllerEvents ==> subscribedUseButton == useButton
    {
      ManageUseListener(true);
    }

    method ControllerTouchInteractableObject(target: Option<ObjectId>)
      requires Valid()
      modifies this
      ensures Valid()
      ensures Snapshot() == UseModel.ControllerTouchInteractableObject(old(Snapshot()), target)
    {
      ghost var s0 := Snapshot();
      if target.Some? && target.value in scene.objects {
        var touchedObjectScript := scene.objects[target.value];
        if touchedObjectScript.useOverrideButton != Undefined {
          savedUseButton := subscribedUseButton;
          useButton := touchedObjectScript.useOverrideButton;
        }
      }
      TouchInv(s0, target);
    }

    method ControllerUntouchInteractableObject(target: Option<ObjectId>)
      requires Valid()
      modifies this
      ensures Valid()
      ensures Snapshot() == UseModel.ControllerUntouchInteractableObject(old(Snapshot()), target)
    {
      ghost var s0 := Snapshot();
      if target.Some? && target.value in scene.objects {
        var touchedObjectScript := scene.objects[target.value];
        if !touchedObjectScript.isUsing && savedUseButton != Undefined {
          useButton := savedUseButton;
          savedUseButton := Undefined;
        }
      }
      TouchInv(s0, target);
    }

    method ManageUseListener(state: bool)
      requires Valid()
      modifies this
      ensures Valid()
      ensures Snapshot() == UseModel.ManageUseListener(old(Snapshot()), state)
      ensures hasControllerEvents && state ==> subscribedUseButton == useButton
      ensures hasControllerEvents && !state ==> subscribedUseButton == Undefined
    {
      ghost var s0 := Snapshot();
      if hasControllerEvents && subscribedUseButton != Undefined
         && (!state || useButton != subscribedUseButton)
      {
        log := log + [UnsubscribeCall(subscribedUseButton, true), UnsubscribeCall(subscribedUseButton, false)];
        subscribedUseButton := Undefined;
      }
      if hasControllerEvents && state && useButton != Undefined && useButton != subscribedUseButton {
        log := log + [SubscribeCall(useButton, true), SubscribeCall(useButton, false)];
        subscribedUseButton := useButton;
      }
      ManageUseListenerInv(s0, state);
    }

    method SetObjectUsingState(obj: Option<ObjectId>, value: int)
      modifies scene
      ensures scene.objects == UseModel.SetObjectUsingState(old(scene.objects), obj, value)
    {
      if obj.Some? && obj.value in scene.objects {
        var objScript := scene.objects[obj.value];
        scene.objects := scene.objects[obj.value := objScript.(usingState := value)];
      }
    }

    method AttemptHaptics()
      modifies this
      ensures Snapshot() == UseModel.AttemptHaptics(old(Snapshot()))
    {
      if usingObject.Some? {
        log := log + [HapticsOnUse(usingObject.value)];
      }
    }

    method ToggleControllerVisibility(visible: bool)
      modifies this
      ensures Snapshot() == UseModel.ToggleControllerVisibility(old(Snapshot()), visible)
    {
      if usingObject.Some? {
        log := log + [ControllerVisibility(visible, usingObject.value)];
      }
    }

    method UseInteractedObject(touchedObject: ObjectId)
      requires Valid()
      modifies this
      ensures Valid()
      ensures Snapshot() == UseModel.UseInteractedObject(old(Snapshot()), touchedObject)
    {
      ghost var s0 := Snapshot();
      if usingObject != Some(touchedObject) && IsObjectUsable(scene.objects, touchedObject) {
        usingObject := Some(touchedObject);
        var usingObjectScript := scene.objects[touchedObject];
        if !usingObjectScript.allowsController {
          usingObject := None;
        } else {
          log := log + [StartUsingCall(touchedObject)];
          ToggleControllerVisibility(false);
          AttemptHaptics();
          log := log + [UseEvent(touchedObject)];
        }
      }
      UseInteractedObjectInv(s0, touchedObject);
    }

    method UnuseInteractedObject(completeStop: bool)
      requires Valid()
      modifies this
      ensures Valid()
      ensures Snapshot() == UseModel.UnuseInteractedObject(old(Snapshot()), completeStop)
    {
      ghost var s0 := Snapshot();
      if usingObject.Some? {
        var id := usingObject.value;
        if id in scene.objects && completeStop {
          log := log + [StopUsingCall(id)];
        }
        ghost var s1 := Snapshot();
        assert s1 == (if id in s0.objects && completeStop then s0.(log := s0.log + [StopUsingCall(id)]) else s0);
        ToggleControllerVisibility(true);
        assert Snapshot() == UseModel.ToggleControllerVisibility(s1, true);
        log := log + [UnuseEvent(id)];
        usingObject := None;
      }
      UnuseInteractedObjectInv(s0, completeStop);
    }

    method StopUsing()
      requires Valid()
      modifies this, scene
      ensures Valid()
      ensures Snapshot() == UseModel.StopUsing(old(Snapshot()))
    {
      ghost var s0 := Snapshot();
      SetObjectUsingState(usingObject, 0);
      SetObjectUsingStateInv(s0, s0.usingObject, 0);
      UnuseInteractedObject(true);
    }

    /** `touchedObject` is what the touch component reports as touched, `grabbedObject` what
        the grab component reports as grabbed. */
    method AttemptUseObject(touchedObject: Option<ObjectId>, grabbedObject: Option<ObjectId>)
      requires Valid()
      modifies this, scene
      ensures Valid()
      ensures Snapshot() == UseModel.AttemptUseObject(old(Snapshot()), touchedObject, grabbedObject)
    {
      ghost var s0 := Snapshot();
      var touched := touchedObject;
      if touched.None? {
        touched := grabbedObject;
      }
      if touched.Some? && IsObjectInteractable(scene.objects, touched.value) {
        var interactableObjectScript := scene.objects[touched.value];
        if !(interactableObjectScript.useOnlyIfGrabbed && !interactableObjectScript.isGrabbed) {
          assert UseTarget(s0.objects, touchedObject, grabbedObject) == touched;
          UseInteractedObject(touched.value);
          assert Snapshot() == UseModel.UseInteractedObject(s0, touched.value);
          CountPress();
        } else {
          assert UseTarget(s0.objects, touchedObject, grabbedObject) == None;
          assert Snapshot() == s0;
        }
      } else {
        assert UseTarget(s0.objects, touchedObject, grabbedObject) == None;
        assert Snapshot() == s0;
      }
      AttemptUseObjectInv(s0, touchedObject, grabbedObject);
    }

    /** After a use attempt: one more press on the object in use, unless it is
        hold-to-use. */
    method CountPress()
      modifies scene
      ensures Snapshot() == UseModel.CountPress(old(Snapshot()))
    {
      if usingObject.Some? && !IsObjectHoldOnUse(scene.objects, usingObject) {
        SetObjectUsingState(usingObject, GetObjectUsingState(scene.objects, usingObject) + 1);
      }
    }

    /** The press handler subscribed to the use alias. */
    method DoStartUseObject(touchedObject: Option<ObjectId>, grabbedObject: Option<ObjectId>)
      requires Valid()
      modifies this, scene
      ensures Valid()
      ensures Snapshot() == UseModel.DoStartUseObject(old(Snapshot()), touchedObject, grabbedObject)
      ensures IsUseButtonPressed()
    {
      usePressed := true;
      AttemptUseObject(touchedObject, grabbedObject);
    }

    /** The release handler subscribed to the use alias. */
    method DoStopUseObject()
      requires Valid()
      modifies this, scene
      ensures Valid()
      ensures Snapshot() == UseModel.DoStopUseObject(old(Snapshot()))
      ensures !IsUseButtonPressed()
    {
      ghost var s0 := Snapshot();
      if IsObjectHoldOnUse(scene.objects, usingObject) || GetObjectUsingState(scene.objects, usingObject) >= 2 {
        StopUsing();
        assert Snapshot() == UseModel.StopUsing(s0);
      } else {
        assert Snapshot() == s0;
      }
      usePressed := false;
      ReleaseInv(s0);
    }
  }

  /** A client of the class: one toggle object in a scene, the component enabled, the use
      button pressed and released twice. The object is used after the first press and
      release, and after the second the controller uses nothing and the counter is 0. */
  method ToggleTwice() returns (afterFirst: Option<ObjectId>, afterSecond: Option<ObjectId>, counter: int)
    ensures afterFirst == Some(7) && afterSecond == None && counter == 0
  {
    var door := InteractableObject(true, false, Undefined, false, false, false, true, true, 0);
    var scene := new Scene(map[7 := door]);
    var controller := new InteractUse(scene);
    controller.OnEnable(true);
    ghost var s0 := controller.Snapshot();
    UseScenarios.ToggleUseCycle(s0, 7);
    controller.DoStartUseObject(Some(7), None);
    controller.DoStopUseObject();
    afterFirst := controller.GetUsingObject();
    controller.DoStartUseObject(Some(7), None);
    controller.DoStopUseObject();
    afterSecond := controller.GetUsingObject();
    counter := GetObjectUsingState(scene.objects, Some(7));
  }
}
