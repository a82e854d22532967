/** What the log of calls and events guarantees, and the invariant every operation keeps.

    The log is audited by replaying it: subscription calls must come as press/release
    pairs, a subscribe only when nothing is subscribed and an unsubscribe only of the alias
    that is subscribed; an object's StopUsing call and its unuse event must belong to the
    latest use event that is still open. The invariant ties the component's fields to that
    replay, and it holds after any sequence of signals the component can receive.
 */
module UseInvariant {
  import opened UseModel

  /** Where the subscription protocol stands: one alias bound (possibly Undefined), half of
      a subscribe or unsubscribe pair done, or a call out of order seen. */
  datatype Binding = Bound(alias: ButtonAlias) | Subscribing(alias: ButtonAlias)
                   | Unsubscribing(alias: ButtonAlias) | Unpaired

  /** Where the use protocol stands: nothing open, a use of `obj` open, or a stop or unuse
      seen that does not belong to the open use. */
  datatype UseTrack = Unused | InUse(obj: ObjectId) | Unmatched

  datatype Audit = Audit(binding: Binding, use: UseTrack)

  function BindingStep(b: Binding, e: Event): Binding
  {
    match e
    case SubscribeCall(a, onPress) =>
      if b == Bound(Undefined) && a != Undefined && onPress then Subscribing(a)
      else if b == Subscribing(a) && !onPress then Bound(a)
      else Unpaired
    case UnsubscribeCall(a, onPress) =>
      if b == Bound(a) && a != Undefined && onPress then Unsubscribing(a)
      else if b == Unsubscribing(a) && !onPress then Bound(Undefined)
      else Unpaired
    case _ => if b.Bound? then b else Unpaired
  }

  function UseStep(u: UseTrack, e: Event): UseTrack
  {
    match e
    case UseEvent(id) => if u.Unmatched? then Unmatched else InUse(id)
    case StopUsingCall(id) => if u == InUse(id) then u else Unmatched
    case UnuseEvent(id) => if u == InUse(id) then Unused else Unmatched
    case _ => u
  }

  function AuditStep(a: Audit, e: Event): Audit
  {
    Audit(BindingStep(a.binding, e), UseStep(a.use, e))
  }

  /** Replays a log from a fresh component. */
  function AuditLog(log: seq<Event>): Audit
    decreases |log|
  {
    if log == [] then Audit(Bound(Undefined), Unused)
    else AuditStep(AuditLog(log[..|log| - 1]), log[|log| - 1])
  }

  /** Replaying one more event is one more audit step. */
  lemma AuditSnoc(log: seq<Event>, e: Event)
    ensures AuditLog(log + [e]) == AuditStep(AuditLog(log), e)
  {
    assert (log + [e])[..|log|] == log;
  }

  lemma AuditSnocAll()
    ensures forall log: seq<Event>, e: Event {:trigger AuditLog(log + [e])} ::
              AuditLog(log + [e]) == AuditStep(AuditLog(log), e)
  {
    forall log: seq<Event>, e: Event
      ensures AuditLog(log + [e]) == AuditStep(AuditLog(log), e)
    {
      AuditSnoc(log, e);
    }
  }

  /** Replaying a log that ends in a whole subscribe or unsubscribe pair. */
  lemma AuditPairs(log: seq<Event>, alias: ButtonAlias)
    ensures AuditLog(log + SubscribePair(alias))
            == AuditStep(AuditStep(AuditLog(log), SubscribeCall(alias, true)), SubscribeCall(alias, false))
    ensures AuditLog(log + UnsubscribePair(alias))
            == AuditStep(AuditStep(AuditLog(log), UnsubscribeCall(alias, true)), UnsubscribeCall(alias, false))
  {
    AuditSnocAll();
    assert log + SubscribePair(alias) == log + [SubscribeCall(alias, true)] + [SubscribeCall(alias, false)];
    assert log + UnsubscribePair(alias) == log + [UnsubscribeCall(alias, true)] + [UnsubscribeCall(alias, false)];
  }

  /** The component invariant: the object in use carries the script, the subscribed alias
      is the one the log leaves bound (so every subscription call so far came in a proper
      pair), no stop or unuse was ever out of place, and the object in use is the one of
      the latest open use event. */
  ghost predicate Inv(s: State)
  {
    && (s.usingObject.Some? ==> s.usingObject.value in s.objects)
    && AuditLog(s.log).binding == Bound(s.subscribedUseButton)
    && AuditLog(s.log).use != Unmatched
    && (s.usingObject.Some? ==> AuditLog(s.log).use == InUse(s.usingObject.value))
  }

  lemma InitialInv(objects: Objects)
    ensures Inv(Initial(objects))
  {
  }

  // ---------------------------------------------------------------------------------------
  // Every operation keeps the invariant

  lemma ManageUseListenerInv(s: State, state: bool)
    requires Inv(s)
    ensures Inv(ManageUseListener(s, state))
  {
    var s1 :=
      if s.hasControllerEvents && s.subscribedUseButton != Undefined
         && (!state || s.useButton != s.subscribedUseButton)
      then s.(subscribedUseButton := Undefined, log := s.log + UnsubscribePair(s.subscribedUseButton))
      else s;
    AuditPairs(s.log, s.subscribedUseButton);
    assert AuditLog(s1.log).binding == Bound(s1.subscribedUseButton);
    assert AuditLog(s1.log).use == AuditLog(s.log).use;
    AuditPairs(s1.log, s1.useButton);
  }

  lemma TouchInv(s: State, target: Option<ObjectId>)
    requires Inv(s)
    ensures Inv(ControllerTouchInteractableObject(s, target))
    ensures Inv(ControllerUntouchInteractableObject(s, target))
  {
  }

  lemma UseInteractedObjectInv(s: State, touched: ObjectId)
    requires Inv(s)
    ensures Inv(UseInteractedObject(s, touched))
  {
    var r := UseInteractedObject(s, touched);
    if r.log != s.log {
      var l1 := s.log + [StartUsingCall(touched)];
      var l2 := l1 + [ControllerVisibility(false, touched)];
      var l3 := l2 + [HapticsOnUse(touched)];
      assert r.log == l3 + [UseEvent(touched)];
      AuditSnoc(s.log, StartUsingCall(touched));
      AuditSnoc(l1, ControllerVisibility(false, touched));
      AuditSnoc(l2, HapticsOnUse(touched));
      AuditSnoc(l3, UseEvent(touched));
      assert AuditLog(l3).binding == AuditLog(s.log).binding;
    }
  }

  lemma UnuseInteractedObjectInv(s: State, completeStop: bool)
    requires Inv(s)
    ensures Inv(UnuseInteractedObject(s, completeStop))
  {
    AuditSnocAll();
    if s.usingObject.Some? {
      var id := s.usingObject.value;
      var r := UnuseInteractedObject(s, completeStop);
      if completeStop {
        assert r.log == s.log + [StopUsingCall(id)] + [ControllerVisibility(true, id)] + [UnuseEvent(id)];
      } else {
        assert r.log == s.log + [ControllerVisibility(true, id)] + [UnuseEvent(id)];
      }
    }
  }

  lemma SetObjectUsingStateInv(s: State, obj: Option<ObjectId>, value: int)
    requires Inv(s)
    ensures Inv(s.(objects := SetObjectUsingState(s.objects, obj, value)))
  {
  }

  lemma StopUsingInv(s: State)
    requires Inv(s)
    ensures Inv(StopUsing(s))
    ensures Inv(ForceStopUsing(s))
    ensures Inv(ForceResetUsing(s))
  {
    SetObjectUsingStateInv(s, s.usingObject, 0);
    UnuseInteractedObjectInv(s.(objects := SetObjectUsingState(s.objects, s.usingObject, 0)), true);
    UnuseInteractedObjectInv(s, false);
  }

  lemma AttemptUseObjectInv(s: State, touched: Option<ObjectId>, grabbed: Option<ObjectId>)
    requires Inv(s)
    ensures Inv(AttemptUseObject(s, touched, grabbed))
  {
    var t := UseTarget(s.objects, touched, grabbed);
    if t.Some? {
      var s1 := UseInteractedObject(s, t.value);
      UseInteractedObjectInv(s, t.value);
      SetObjectUsingStateInv(s1, s1.usingObject, GetObjectUsingState(s1.objects, s1.usingObject) + 1);
    }
  }

  lemma PressInv(s: State, touched: Option<ObjectId>, grabbed: Option<ObjectId>)
    requires Inv(s)
    ensures Inv(DoStartUseObject(s, touched, grabbed))
  {
    var pressed := s.(usePressed := true);
    assert Inv(pressed);
    AttemptUseObjectInv(pressed, touched, grabbed);
  }

  lemma ReleaseInv(s: State)
    requires Inv(s)
    ensures Inv(DoStopUseObject(s))
  {
    StopUsingInv(s);
    var stopped :=
      if IsObjectHoldOnUse(s.objects, s.usingObject) || GetObjectUsingState(s.objects, s.usingObject) >= 2
      then StopUsing(s) else s;
    assert Inv(stopped);
    assert DoStopUseObject(s) == stopped.(usePressed := false);
  }

  lemma HandlersInv(s: State, touched: Option<ObjectId>, grabbed: Option<ObjectId>)
    requires Inv(s)
    ensures Inv(DoStartUseObject(s, touched, grabbed))
    ensures Inv(DoStopUseObject(s))
  {
    PressInv(s, touched, grabbed);
    ReleaseInv(s);
  }

  lemma LifecycleInv(s: State, eventsFound: bool)
    requires Inv(s)
    ensures Inv(OnEnable(s, eventsFound))
    ensures Inv(OnDisable(s))
  {
    ManageUseListenerInv(s.(hasControllerEvents := eventsFound), true);
    StopUsingInv(s);
    ManageUseListenerInv(ForceStopUsing(s), false);
  }

  // ---------------------------------------------------------------------------------------
  // Runs of signals

  /** What the component can be told: engine lifecycle calls, an alias press or release
      from the controller-events component, the public use calls, touch and untouch, and
      other components replacing an object's script state (grabbing, IsUsing, counters). */
  datatype Signal =
    | Enable(eventsFound: bool)
    | Disable
    | Frame
    | AliasOn(alias: ButtonAlias, touched: Option<ObjectId>, grabbed: Option<ObjectId>)
    | AliasOff(alias: ButtonAlias)
    | AttemptUse(touched: Option<ObjectId>, grabbed: Option<ObjectId>)
    | Touch(target: Option<ObjectId>)
    | Untouch(target: Option<ObjectId>)
    | ForceStop
    | ForceReset
    | ObjectChanged(id: ObjectId, script: InteractableObject)

  /** One signal. An alias event reaches the handlers only when that alias is subscribed;
      other components may change an existing object's script but not remove it. */
  function Step(s: State, signal: Signal): State
  {
    match signal
    case Enable(found) => OnEnable(s, found)
    case Disable => OnDisable(s)
    case Frame => ManageUseListener(s, true)
    case AliasOn(alias, touched, grabbed) =>
      if alias != Undefined && alias == s.subscribedUseButton then DoStartUseObject(s, touched, grabbed) else s
    case AliasOff(alias) =>
      if alias != Undefined && alias == s.subscribedUseButton then DoStopUseObject(s) else s
    case AttemptUse(touched, grabbed) => AttemptUseObject(s, touched, grabbed)
    case Touch(target) => ControllerTouchInteractableObject(s, target)
    case Untouch(target) => ControllerUntouchInteractableObject(s, target)
    case ForceStop => ForceStopUsing(s)
    case ForceReset => ForceResetUsing(s)
    case ObjectChanged(id, script) =>
      if id in s.objects then s.(objects := s.objects[id := script]) else s
  }

  function Run(s: State, signals: seq<Signal>): State
    decreases |signals|
  {
    if signals == [] then s else Run(Step(s, signals[0]), signals[1..])
  }

  lemma AttemptUseObjectFrame(s: State, touched: Option<ObjectId>, grabbed: Option<ObjectId>)
    ensures AttemptUseObject(s, touched, grabbed).objects.Keys == s.objects.Keys
    ensures s.log <= AttemptUseObject(s, touched, grabbed).log
  {
    var t := UseTarget(s.objects, touched, grabbed);
    if t.Some? {
      assert s.log <= UseInteractedObject(s, t.value).log;
    }
  }

  lemma StopUsingFrame(s: State)
    ensures StopUsing(s).objects.Keys == s.objects.Keys
    ensures s.log <= StopUsing(s).log
    ensures s.log <= ForceStopUsing(s).log
    ensures s.log <= ForceResetUsing(s).log
  {
  }

  lemma ReleaseFrame(s: State)
    ensures DoStopUseObject(s).objects.Keys == s.objects.Keys
    ensures s.log <= DoStopUseObject(s).log
  {
    StopUsingFrame(s);
  }

  lemma ManageUseListenerFrame(s: State, state: bool)
    ensures s.log <= ManageUseListener(s, state).log
  {
  }

  lemma PrefixTransitive(a: seq<Event>, b: seq<Event>, c: seq<Event>)
    requires a <= b && b <= c
    ensures a <= c
  {
  }

  /** Every signal keeps the set of objects and only appends to the log. */
  lemma StepFrame(s: State, signal: Signal)
    ensures Step(s, signal).objects.Keys == s.objects.Keys
    ensures s.log <= Step(s, signal).log
  {
    match signal
    case Enable(found) =>
      ManageUseListenerFrame(s.(hasControllerEvents := found), true);
    case Disable =>
      var s1 := ForceStopUsing(s);
      StopUsingFrame(s);
      ManageUseListenerFrame(s1, false);
      PrefixTransitive(s.log, s1.log, OnDisable(s).log);
    case Frame =>
      ManageUseListenerFrame(s, true);
    case AliasOn(alias, touched, grabbed) =>
      AttemptUseObjectFrame(s.(usePressed := true), touched, grabbed);
      assert DoStartUseObject(s, touched, grabbed).objects == AttemptUseObject(s.(usePressed := true), touched, grabbed).objects;
    case AliasOff(alias) =>
      StopUsingFrame(s);
      ReleaseFrame(s);
    case AttemptUse(touched, grabbed) =>
      AttemptUseObjectFrame(s, touched, grabbed);
    case Touch(target) =>
    case Untouch(target) =>
    case ForceStop =>
      StopUsingFrame(s);
    case ForceReset =>
      StopUsingFrame(s);
    case ObjectChanged(id, script) =>
  }

  /** Every signal keeps the invariant. */
  lemma StepInv(s: State, signal: Signal)
    requires Inv(s)
    ensures Inv(Step(s, signal))
  {
    match signal
    case Enable(found) => LifecycleInv(s, found);
    case Disable => LifecycleInv(s, false);
    case Frame => ManageUseListenerInv(s, true);
    case AliasOn(alias, touched, grabbed) => HandlersInv(s, touched, grabbed);
    case AliasOff(alias) => HandlersInv(s, None, None);
    case AttemptUse(touched, grabbed) => AttemptUseObjectInv(s, touched, grabbed);
    case Touch(target) => TouchInv(s, target);
    case Untouch(target) => TouchInv(s, target);
    case ForceStop => StopUsingInv(s);
    case ForceReset => StopUsingInv(s);
    case ObjectChanged(id, script) =>
  }

  /** After any run from a state meeting the invariant: the invariant still holds, no
      object has appeared or disappeared, and the earlier log is a prefix of the new one. */
  lemma {:induction false} RunInv(s: State, signals: seq<Signal>)
    requires Inv(s)
    ensures Inv(Run(s, signals))
    ensures Run(s, signals).objects.Keys == s.objects.Keys
    ensures s.log <= Run(s, signals).log
    decreases |signals|
  {
    if signals != [] {
      StepInv(s, signals[0]);
      StepFrame(s, signals[0]);
      RunInv(Step(s, signals[0]), signals[1..]);
    }
  }

  /** From a freshly created component, whatever happens: subscriptions always came in
      press/release pairs, never twice and never of an alias that was not bound, and the
      subscribed alias is the one the log leaves bound; no StopUsing call and no unuse event
      ever came without the open use event of the same object. */
  lemma RunFromInitial(objects: Objects, signals: seq<Signal>)
    ensures var r := Run(Initial(objects), signals);
            AuditLog(r.log).binding == Bound(r.subscribedUseButton)
            && AuditLog(r.log).use != Unmatched
            && (r.usingObject.Some? ==> r.usingObject.value in objects)
  {
    InitialInv(objects);
    RunInv(Initial(objects), signals);
  }
}
