/*******************************************************************************
 *  The notification guard of RxObject: suppression and delay scopes over a
 *  lazily created notification record, the two raise operations, the flush
 *  on release of the outermost delay scope, and RaiseAndSetIfChanged.
 *
 *  The object is a value; every operation returns the next state. What the
 *  object's PropertyChanging/PropertyChanged subscribers observe is recorded,
 *  in order, in `effects`, together with the backing-field assignments made
 *  by RaiseAndSetIfChanged.
 *******************************************************************************/

module RxObject {
  import opened Common
  import opened InpcExtensions

  /** The lazily created record: the two pending buffers and the two
      counters. The source's counters are 64-bit; no reachable state comes
      near their range, so they are unbounded here. */
  datatype Notifications = Notifications(
    propertyChangedEvents: seq<PropertyChangedEventArgs>,
    propertyChangingEvents: seq<PropertyChangingEventArgs>,
    changeNotificationsDelayed: int,
    changeNotificationsSuppressed: int)

  const EmptyNotifications := Notifications([], [], 0, 0)

  /** What a subscriber (or the backing field) observes, in order. */
  datatype Effect =
    | PropertyChangingRaised(changing: PropertyChangingEventArgs)
    | PropertyChangedRaised(changed: PropertyChangedEventArgs)
    | FieldAssigned(propertyName: Name)

  /** The object's notification state. `created` is the lazy record's
      IsValueCreated; while it is false, `notification` is the record that
      would be created. The scope sets name the disposal handles handed out
      and not yet released. */
  datatype ObjectState = ObjectState(
    created: bool,
    notification: Notifications,
    suppressionScopes: set<nat>,
    delayScopes: set<nat>,
    nextScope: nat,
    effects: seq<Effect>)

  /** A scope-opening operation's result: the next state and the handle. */
  datatype Opened = Opened(state: ObjectState, handle: nat)

  /** The outcome of RaiseAndSetIfChanged: the next state and the new
      content of the backing field. */
  datatype Assignment<V> = Assignment(state: ObjectState, field: V)

  /** The states the operations can reach: each counter is the number of
      its scopes still open, the record is untouched until created, and the
      buffers hold events only while a delay scope is open. */
  ghost predicate Valid(s: ObjectState)
  {
    && s.notification.changeNotificationsSuppressed == |s.suppressionScopes|
    && s.notification.changeNotificationsDelayed == |s.delayScopes|
    && (forall h :: h in s.suppressionScopes ==> h < s.nextScope)
    && (forall h :: h in s.delayScopes ==> h < s.nextScope)
    && (!s.created ==> s.notification == EmptyNotifications)
    && (s.notification.changeNotificationsDelayed == 0 ==>
          s.notification.propertyChangedEvents == [] && s.notification.propertyChangingEvents == [])
  }

  /** A newly constructed object: the record is not created yet, so
      notifications are enabled and not delayed. */
  function NewObject(): (s: ObjectState)
    ensures Valid(s)
    ensures !s.created && s.effects == []
    ensures AreChangeNotificationsEnabled(s) && !AreChangeNotificationsDelayed(s)
  {
    ObjectState(false, EmptyNotifications, {}, {}, 0, [])
  }

  /** The test on the lazily created record and its suppression counter;
      in a reachable state it holds exactly when no suppression scope is open. */
  function AreChangeNotificationsEnabled(s: ObjectState): (enabled: bool)
    ensures Valid(s) ==> (enabled <==> s.suppressionScopes == {})
  {
    !s.created || s.notification.changeNotificationsSuppressed == 0
  }

  /** The test on the lazily created record and its delay counter; in a
      reachable state it holds exactly when some delay scope is open. */
  function AreChangeNotificationsDelayed(s: ObjectState): (delayed: bool)
    ensures Valid(s) ==> (delayed <==> s.delayScopes != {})
  {
    s.created && s.notification.changeNotificationsDelayed > 0
  }

  /** Collects the two guards' own postconditions in one place: notifications
      are enabled exactly when no suppression scope is open, and delayed
      exactly when some delay scope is open. */
  lemma GuardsReflectOpenScopes(s: ObjectState)
    requires Valid(s)
    ensures AreChangeNotificationsEnabled(s) <==> s.suppressionScopes == {}
    ensures AreChangeNotificationsDelayed(s) <==> s.delayScopes != {}
  {
    if s.created && s.suppressionScopes != {} {
      var h :| h in s.suppressionScopes;
      assert |s.suppressionScopes| >= 1;
    }
    if s.created && s.delayScopes != {} {
      var h :| h in s.delayScopes;
      assert |s.delayScopes| >= 1;
    }
  }

  /** SuppressChangeNotifications: creates the record if needed, increments
      the suppressed counter and hands out a fresh handle. */
  function SuppressChangeNotifications(s: ObjectState): (r: Opened)
    ensures r.state.created
    ensures Valid(s) ==> r.handle !in s.suppressionScopes && r.handle !in s.delayScopes
    ensures r.state.suppressionScopes == s.suppressionScopes + {r.handle}
    ensures r.state.notification.changeNotificationsSuppressed == s.notification.changeNotificationsSuppressed + 1
    ensures r.state.notification.(changeNotificationsSuppressed := s.notification.changeNotificationsSuppressed) == s.notification
    ensures r.state.delayScopes == s.delayScopes && r.state.effects == s.effects
    ensures Valid(s) ==> Valid(r.state) && !AreChangeNotificationsEnabled(r.state)
  {
    var h := s.nextScope;
    var n := s.notification;
    Opened(
      s.(created := true,
         notification := n.(changeNotificationsSuppressed := n.changeNotificationsSuppressed + 1),
         suppressionScopes := s.suppressionScopes + {h},
         nextScope := h + 1),
      h)
  }

  /** Disposing a suppression handle: decrements the counter once; a handle
      that is not open (already released, or never handed out) does
      nothing. Nothing is replayed. */
  function ReleaseSuppression(s: ObjectState, handle: nat): (r: ObjectState)
    ensures handle !in s.suppressionScopes ==> r == s
    ensures handle in s.suppressionScopes ==>
      && r.suppressionScopes == s.suppressionScopes - {handle}
      && r.notification.changeNotificationsSuppressed == s.notification.changeNotificationsSuppressed - 1
      && r.notification.(changeNotificationsSuppressed := s.notification.changeNotificationsSuppressed) == s.notification
      && r.effects == s.effects && r.delayScopes == s.delayScopes
    ensures Valid(s) ==> Valid(r)
  {
    if handle !in s.suppressionScopes then s
    else
      var n := s.notification;
      s.(notification := n.(changeNotificationsSuppressed := n.changeNotificationsSuppressed - 1),
         suppressionScopes := s.suppressionScopes - {handle})
  }

  /** DelayChangeNotifications: creates the record if needed, increments the
      delayed counter and hands out a fresh handle. */
  function DelayChangeNotifications(s: ObjectState): (r: Opened)
    ensures r.state.created
    ensures Valid(s) ==> r.handle !in s.suppressionScopes && r.handle !in s.delayScopes
    ensures r.state.delayScopes == s.delayScopes + {r.handle}
    ensures r.state.notification.changeNotificationsDelayed == s.notification.changeNotificationsDelayed + 1
    ensures r.state.notification.(changeNotificationsDelayed := s.notification.changeNotificationsDelayed) == s.notification
    ensures r.state.suppressionScopes == s.suppressionScopes && r.state.effects == s.effects
    ensures Valid(s) ==> Valid(r.state) && AreChangeNotificationsDelayed(r.state)
  {
    var h := s.nextScope;
    var n := s.notification;
    Opened(
      s.(created := true,
         notification := n.(changeNotificationsDelayed := n.changeNotificationsDelayed + 1),
         delayScopes := s.delayScopes + {h},
         nextScope := h + 1),
      h)
  }

  /** The notifications a flush raises: one new event per buffered event,
      carrying the same property name. */
  function ChangingFlush(events: seq<PropertyChangingEventArgs>): (r: seq<Effect>)
    ensures |r| == |events|
    ensures forall i :: 0 <= i < |events| ==>
      r[i].PropertyChangingRaised? && r[i].changing.propertyName == events[i].propertyName
  {
    Map((e: PropertyChangingEventArgs) => PropertyChangingRaised(PropertyChangingEventArgs(e.propertyName)), events)
  }

  function ChangedFlush(events: seq<PropertyChangedEventArgs>): (r: seq<Effect>)
    ensures |r| == |events|
    ensures forall i :: 0 <= i < |events| ==>
      r[i].PropertyChangedRaised? && r[i].changed.propertyName == events[i].propertyName
  {
    Map((e: PropertyChangedEventArgs) => PropertyChangedRaised(PropertyChangedEventArgs(e.propertyName)), events)
  }

  /** Disposing a delay handle. An unknown handle does nothing. If the
      decremented counter is not zero nothing else happens. Otherwise the
      distinct changing events are raised, then the distinct changed events,
      then both buffers are cleared. The flush does not consult the
      suppression counter. */
  function ReleaseDelay(s: ObjectState, handle: nat): (r: ObjectState)
    ensures handle !in s.delayScopes ==> r == s
    ensures handle in s.delayScopes ==>
      && r.delayScopes == s.delayScopes - {handle}
      && r.suppressionScopes == s.suppressionScopes
      && r.notification.changeNotificationsDelayed == s.notification.changeNotificationsDelayed - 1
      && r.notification.changeNotificationsSuppressed == s.notification.changeNotificationsSuppressed
    ensures handle in s.delayScopes && s.notification.changeNotificationsDelayed - 1 != 0 ==>
      && r.effects == s.effects
      && r.notification.propertyChangedEvents == s.notification.propertyChangedEvents
      && r.notification.propertyChangingEvents == s.notification.propertyChangingEvents
    ensures handle in s.delayScopes && s.notification.changeNotificationsDelayed - 1 == 0 ==>
      && r.effects == s.effects
           + ChangingFlush(DistinctChanging(s.notification.propertyChangingEvents))
           + ChangedFlush(DistinctChanged(s.notification.propertyChangedEvents))
      && r.notification.propertyChangedEvents == []
      && r.notification.propertyChangingEvents == []
    ensures Valid(s) ==> Valid(r)
  {
    if handle !in s.delayScopes then s
    else
      var n := s.notification;
      var delayed := n.changeNotificationsDelayed - 1;
      var s1 := s.(notification := n.(changeNotificationsDelayed := delayed),
                   delayScopes := s.delayScopes - {handle});
      if delayed != 0 then s1
      else
        s1.(effects := s.effects
                       + ChangingFlush(DistinctChanging(n.propertyChangingEvents))
                       + ChangedFlush(DistinctChanged(n.propertyChangedEvents)),
            notification := s1.notification.(propertyChangingEvents := [], propertyChangedEvents := []))
  }

  /** RaisePropertyChanging (both overloads; the string overload wraps the
      name in new event arguments): dropped while suppressed, buffered while
      delayed, raised otherwise. */
  function RaisePropertyChanging(s: ObjectState, args: PropertyChangingEventArgs): (r: ObjectState)
    ensures !AreChangeNotificationsEnabled(s) ==> r == s
    ensures AreChangeNotificationsEnabled(s) && AreChangeNotificationsDelayed(s) ==>
      && r.effects == s.effects
      && r.notification.propertyChangingEvents == s.notification.propertyChangingEvents + [args]
      && r == s.(notification := r.notification)
      && r.notification.(propertyChangingEvents := s.notification.propertyChangingEvents) == s.notification
    ensures AreChangeNotificationsEnabled(s) && !AreChangeNotificationsDelayed(s) ==>
      r == s.(effects := s.effects + [PropertyChangingRaised(args)])
    ensures Valid(s) ==> Valid(r)
  {
    if !AreChangeNotificationsEnabled(s) then s
    else if AreChangeNotificationsDelayed(s) then
      s.(notification := s.notification.(
           propertyChangingEvents := s.notification.propertyChangingEvents + [args]))
    else
      s.(effects := s.effects + [PropertyChangingRaised(args)])
  }

  /** RaisePropertyChanged (both overloads): as RaisePropertyChanging, on the
      changed buffer and the changed event. */
  function RaisePropertyChanged(s: ObjectState, args: PropertyChangedEventArgs): (r: ObjectState)
    ensures !AreChangeNotificationsEnabled(s) ==> r == s
    ensures AreChangeNotificationsEnabled(s) && AreChangeNotificationsDelayed(s) ==>
      && r.effects == s.effects
      && r.notification.propertyChangedEvents == s.notification.propertyChangedEvents + [args]
      && r == s.(notification := r.notification)
      && r.notification.(propertyChangedEvents := s.notification.propertyChangedEvents) == s.notification
    ensures AreChangeNotificationsEnabled(s) && !AreChangeNotificationsDelayed(s) ==>
      r == s.(effects := s.effects + [PropertyChangedRaised(args)])
    ensures Valid(s) ==> Valid(r)
  {
    if !AreChangeNotificationsEnabled(s) then s
    else if AreChangeNotificationsDelayed(s) then
      s.(notification := s.notification.(
           propertyChangedEvents := s.notification.propertyChangedEvents + [args]))
    else
      s.(effects := s.effects + [PropertyChangedRaised(args)])
  }

  /** RaiseAndSetIfChanged on one backing field. A null name throws. An
      equal value changes nothing. Otherwise the changing notification is
      raised, the field is assigned, and the changed notification is raised,
      each notification under the current suppression/delay regime. */
  function RaiseAndSetIfChanged<V(==)>(s: ObjectState, backingField: V, newValue: V, propertyName: Option<Name>)
    : (r: Result<Assignment<V>>)
    ensures propertyName.None? ==> r == Failure(ArgumentNull("propertyName"))
    ensures propertyName.Some? ==> r.Success?
    ensures propertyName.Some? && backingField == newValue ==> r == Success(Assignment(s, backingField))
    ensures propertyName.Some? && backingField != newValue ==>
      var n, t := propertyName.value, r.value.state;
      && r.value.field == newValue
      && t.suppressionScopes == s.suppressionScopes && t.delayScopes == s.delayScopes
      && (!AreChangeNotificationsEnabled(s) ==> t == s.(effects := s.effects + [FieldAssigned(n)]))
      && (AreChangeNotificationsEnabled(s) && !AreChangeNotificationsDelayed(s) ==>
            t == s.(effects := s.effects + [
              PropertyChangingRaised(PropertyChangingEventArgs(Some(n))),
              FieldAssigned(n),
              PropertyChangedRaised(PropertyChangedEventArgs(Some(n)))]))
      && (AreChangeNotificationsEnabled(s) && AreChangeNotificationsDelayed(s) ==>
            t == s.(effects := s.effects + [FieldAssigned(n)],
                    notification := s.notification.(
                      propertyChangingEvents :=
                        s.notification.propertyChangingEvents + [PropertyChangingEventArgs(Some(n))],
                      propertyChangedEvents :=
                        s.notification.propertyChangedEvents + [PropertyChangedEventArgs(Some(n))])))
    ensures r.Success? && Valid(s) ==> Valid(r.value.state)
  {
    match propertyName
    case None => Failure(ArgumentNull("propertyName"))
    case Some(n) =>
      if backingField == newValue then Success(Assignment(s, backingField))
      else
        var s1 := RaisePropertyChanging(s, PropertyChangingEventArgs(Some(n)));
        var s2 := s1.(effects := s1.effects + [FieldAssigned(n)]);
        Success(Assignment(RaisePropertyChanged(s2, PropertyChangedEventArgs(Some(n))), newValue))
  }

  /** A raise request, for stating properties of several raises in a row. */
  datatype Raise =
    | Changing(changingArgs: PropertyChangingEventArgs)
    | Changed(changedArgs: PropertyChangedEventArgs)

  function RaiseAll(s: ObjectState, raises: seq<Raise>): ObjectState
    decreases |raises|
  {
    if raises == [] then s
    else
      var s1 := match raises[0]
        case Changing(a) => RaisePropertyChanging(s, a)
        case Changed(a) => RaisePropertyChanged(s, a);
      RaiseAll(s1, raises[1..])
  }

  function ChangingPart(raises: seq<Raise>): seq<PropertyChangingEventArgs>
    decreases |raises|
  {
    if raises == [] then []
    else (if raises[0].Changing? then [raises[0].changingArgs] else []) + ChangingPart(raises[1..])
  }

  function ChangedPart(raises: seq<Raise>): seq<PropertyChangedEventArgs>
    decreases |raises|
  {
    if raises == [] then []
    else (if raises[0].Changed? then [raises[0].changedArgs] else []) + ChangedPart(raises[1..])
  }

  function Immediate(raises: seq<Raise>): seq<Effect>
    decreases |raises|
  {
    if raises == [] then []
    else
      [match raises[0]
       case Changing(a) => PropertyChangingRaised(a)
       case Changed(a) => PropertyChangedRaised(a)] + Immediate(raises[1..])
  }

  /** While suppressed, any number of raises is a complete no-op: nothing is
      raised and nothing is buffered. */
  lemma {:induction false} SuppressedRaisesAreDropped(s: ObjectState, raises: seq<Raise>)
    requires !AreChangeNotificationsEnabled(s)
    ensures RaiseAll(s, raises) == s
    decreases |raises|
  {
    if raises != [] {
      SuppressedRaisesAreDropped(s, raises[1..]);
    }
  }

  /** While delayed and not suppressed, raises append to the matching
      buffers, in order, and nothing is raised. */
  lemma {:induction false} DelayedRaisesAreBuffered(s: ObjectState, raises: seq<Raise>)
    requires AreChangeNotificationsEnabled(s) && AreChangeNotificationsDelayed(s)
    ensures var r := RaiseAll(s, raises);
      && r.effects == s.effects
      && r.notification.propertyChangingEvents == s.notification.propertyChangingEvents + ChangingPart(raises)
      && r.notification.propertyChangedEvents == s.notification.propertyChangedEvents + ChangedPart(raises)
      && r.notification.changeNotificationsDelayed == s.notification.changeNotificationsDelayed
      && r.notification.changeNotificationsSuppressed == s.notification.changeNotificationsSuppressed
      && r == s.(notification := r.notification)
    decreases |raises|
  {
    if raises != [] {
      var s1 := match raises[0]
        case Changing(a) => RaisePropertyChanging(s, a)
        case Changed(a) => RaisePropertyChanged(s, a);
      DelayedRaisesAreBuffered(s1, raises[1..]);
      assert ChangingPart(raises) == (if raises[0].Changing? then [raises[0].changingArgs] else []) + ChangingPart(raises[1..]);
      assert ChangedPart(raises) == (if raises[0].Changed? then [raises[0].changedArgs] else []) + ChangedPart(raises[1..]);
    }
  }

  /** With neither guard active, each raise is passed to subscribers at
      once, in order, and the buffers are untouched. */
  lemma {:induction false} ImmediateRaisesAreEmitted(s: ObjectState, raises: seq<Raise>)
    requires AreChangeNotificationsEnabled(s) && !AreChangeNotificationsDelayed(s)
    ensures RaiseAll(s, raises) == s.(effects := s.effects + Immediate(raises))
    decreases |raises|
  {
    if raises != [] {
      var s1 := match raises[0]
        case Changing(a) => RaisePropertyChanging(s, a)
        case Changed(a) => RaisePropertyChanged(s, a);
      ImmediateRaisesAreEmitted(s1, raises[1..]);
    }
  }

  /** A batch: from a state with no open scope, opening a delay scope,
      raising, and releasing it raises the distinct changing events and then
      the distinct changed events, and leaves the buffers empty. */
  lemma DelayBatchFlushesChangingBeforeChanged(s: ObjectState, raises: seq<Raise>)
    requires Valid(s) && s.suppressionScopes == {} && s.delayScopes == {}
    ensures var o := DelayChangeNotifications(s);
            var r := ReleaseDelay(RaiseAll(o.state, raises), o.handle);
      && Valid(r)
      && r.effects == s.effects
           + ChangingFlush(DistinctChanging(ChangingPart(raises)))
           + ChangedFlush(DistinctChanged(ChangedPart(raises)))
      && r.notification == EmptyNotifications
      && r.delayScopes == {} && r.suppressionScopes == {}
  {
    var o := DelayChangeNotifications(s);
    GuardsReflectOpenScopes(s);
    GuardsReflectOpenScopes(o.state);
    DelayedRaisesAreBuffered(o.state, raises);
    var t := RaiseAll(o.state, raises);
    assert o.state.delayScopes == {o.handle};
    assert t.notification.changeNotificationsDelayed == 1;
    assert t.notification.propertyChangingEvents == ChangingPart(raises);
    assert t.notification.propertyChangedEvents == ChangedPart(raises);
  }

  /** A suppression scope from a state with no open scope: raises inside it
      are dropped, and releasing it replays nothing and re-enables
      notifications. */
  lemma SuppressionDropsWithoutReplay(s: ObjectState, raises: seq<Raise>)
    requires Valid(s) && s.suppressionScopes == {} && s.delayScopes == {}
    ensures var o := SuppressChangeNotifications(s);
            var r := ReleaseSuppression(RaiseAll(o.state, raises), o.handle);
      && Valid(r)
      && r.effects == s.effects
      && r.notification == s.notification
      && AreChangeNotificationsEnabled(r) && !AreChangeNotificationsDelayed(r)
  {
    var o := SuppressChangeNotifications(s);
    SuppressedRaisesAreDropped(o.state, raises);
    GuardsReflectOpenScopes(s);
    GuardsReflectOpenScopes(ReleaseSuppression(o.state, o.handle));
  }

  /** Releasing an inner delay scope raises nothing and keeps the buffers;
      only the outermost release flushes. */
  lemma NestedDelayReleaseKeepsBuffers(s: ObjectState, raises: seq<Raise>)
    requires Valid(s) && s.suppressionScopes == {} && s.delayScopes == {}
    ensures var outer := DelayChangeNotifications(s);
            var inner := DelayChangeNotifications(outer.state);
            var t := RaiseAll(inner.state, raises);
            var r := ReleaseDelay(t, inner.handle);
      && r.effects == s.effects
      && r.notification.propertyChangedEvents == ChangedPart(raises)
      && r.notification.propertyChangingEvents == ChangingPart(raises)
      && AreChangeNotificationsDelayed(r)
  {
    var outer := DelayChangeNotifications(s);
    var inner := DelayChangeNotifications(outer.state);
    GuardsReflectOpenScopes(s);
    GuardsReflectOpenScopes(inner.state);
    DelayedRaisesAreBuffered(inner.state, raises);
    var t := RaiseAll(inner.state, raises);
    assert t.delayScopes == inner.state.delayScopes == {outer.handle, inner.handle};
    assert outer.handle != inner.handle;
    assert t.notification.changeNotificationsDelayed == 2;
    var r := ReleaseDelay(t, inner.handle);
    assert outer.handle in r.delayScopes;
    GuardsReflectOpenScopes(r);
  }

  lemma BatchParts(x: PropertyChangedEventArgs, y: PropertyChangedEventArgs)
    ensures ChangingPart([Changed(x), Changed(x), Changed(y)]) == []
    ensures ChangedPart([Changed(x), Changed(x), Changed(y)]) == [x, x, y]
  {
    var raises := [Changed(x), Changed(x), Changed(y)];
    assert raises[1..] == [Changed(x), Changed(y)];
    assert raises[1..][1..] == [Changed(y)];
    assert raises[1..][1..][1..] == [];
    assert ChangingPart([Changed(y)]) == [];
    assert ChangedPart([Changed(y)]) == [y];
  }

  lemma DistinctOfRepeatedName(x: PropertyChangedEventArgs, y: PropertyChangedEventArgs)
    requires x.propertyName == Some("X") && y.propertyName == Some("Y")
    ensures DistinctChanged([x, x, y]) == [x, y]
  {
    assert IsLast([x, x, y], ChangedName, 1);
    assert !IsLast([x, x, y], ChangedName, 0);
    assert IsLast([x, x, y], ChangedName, 2);
    assert KeepLastFrom([x, x, y], ChangedName, 3) == [];
    assert KeepLastFrom([x, x, y], ChangedName, 2) == [y];
    assert KeepLastFrom([x, x, y], ChangedName, 1) == [x, y];
  }

  /** The batch example: changed events for X, X, Y raised under a delay
      scope come out as one changed event for X followed by one for Y. */
  lemma DelayBatchExample()
    ensures var x := PropertyChangedEventArgs(Some("X"));
            var y := PropertyChangedEventArgs(Some("Y"));
            var s := NewObject();
            var o := DelayChangeNotifications(s);
            var r := ReleaseDelay(RaiseAll(o.state, [Changed(x), Changed(x), Changed(y)]), o.handle);
      r.effects == [PropertyChangedRaised(x), PropertyChangedRaised(y)]
  {
    var x := PropertyChangedEventArgs(Some("X"));
    var y := PropertyChangedEventArgs(Some("Y"));
    var raises := [Changed(x), Changed(x), Changed(y)];
    DelayBatchFlushesChangingBeforeChanged(NewObject(), raises);
    BatchParts(x, y);
    DistinctOfRepeatedName(x, y);
    assert DistinctChanging([]) == [];
    assert ChangingFlush([]) == [];
    assert ChangedFlush([x, y]) == [PropertyChangedRaised(x), PropertyChangedRaised(y)];
  }
}
