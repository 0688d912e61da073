# Stellar3 binding layer, modelled in Dafny

Stellar3 is a small MVVM library for .NET. This project models and proves properties of its
core: the reactive observable object and the path-based change streams and bindings built on it.

- **DistinctEvents** (`InpcExtensions.dfy`). Collapses a batch of buffered property-change
  notifications to the last notification of each property name, keeping their order. One generic
  definition covers both overloads, for changed and for changing event arguments. The source's
  back-to-front scan with a seen-set and a stack is a method with loop invariants. It is proved
  equal to a recursive reference definition: an event survives iff it carries a name and no later
  event carries the same name.
- **RxObject** (`RxObject.dfy`). The notification guard of the observable object base class:
  - the lazily created `Notifications` record;
  - the suppression and delay counters, with one handle per open scope; releasing a handle that is
    not open does nothing, as with a disposable that runs its action at most once;
  - `RaisePropertyChanging` / `RaisePropertyChanged`: dropped while suppressed, buffered while
    delayed, raised otherwise;
  - the flush on release of the outermost delay scope: the distinct changing events, then the
    distinct changed events, then both buffers are cleared;
  - `RaiseAndSetIfChanged`.

  The PropertyChanging/PropertyChanged raises, and the assignments `RaiseAndSetIfChanged` makes,
  are recorded in an effect log.
- **WhenChanged / WhenChangedWithSender** (`NotifyPropertyChangedExtensions.dfy`). The stream of
  values at the end of a member path such as `x => x.A.B`.
  - Objects live in a heap: object id → member → value. The world evolves by a trace of writes and
    PropertyChanged raises.
  - Each level of the path holds at most one handler, on the object it treats as its parent.
  - A non-null value arriving at a level switches the next level to the new parent, which emits
    its current value at once (the `Switch` of the source).
  - A raise is delivered to the handlers attached when it began; levels re-subscribed while it is
    being handled do not see it.
- **BindOneWay / BindTwoWay** (`BindExtensions.dfy`). Both overloads of each, and the two shared
  implementations.
  - Argument validation is modelled in the exact order the code performs it. WhenChanged's checks
    on the expressions come before the implementations' own checks.
  - Then comes the mapping from the values each side's WhenChanged delivers to the property
    setter calls the binding makes. In a two-way binding the target side's first value is skipped,
    so the host wins the initial synchronisation.

`Common.dfy` holds the shared vocabulary:
- names;
- `Option`, for nullable references;
- the two exceptions: `ArgumentNullException` and `ArgumentException`;
- `Result`;
- property-access expressions. Each is a lambda body plus the member chain resolved from it.

Behaviour of the code that a reader might not expect, and that the model keeps:
- With two or more buffered events, `DistinctEvents` drops events whose property name is null
  (InpcExtensions.cs:21). A batch of one event is returned unchanged, even if its name is null.
- The XML documentation of WhenChanged says a null object to monitor throws
  `ArgumentNullException`. The code does not check it: the stream just never emits
  (`NullRootNeverEmits`). `BindOneWay` does check its host object; `BindTwoWay` does not
  (`TwoWayAcceptsNullHost`).
- When an intermediate object becomes null, the code keeps listening to the old one. See Findings.
  The model keeps that behaviour as a separate mode for the counterexample. WhenChanged, and the
  bindings built on it, use the corrected behaviour: a null link detaches the levels below it.

## Model

| member | source | states |
|---|---|---|
| InpcExtensions.KeepLastFrom | Stellar3/InpcExtensions.cs:18-25 | every surviving event carries a non-null name and comes from the scanned suffix; there are never more survivors than events |
| InpcExtensions.DistinctEvents | Stellar3/InpcExtensions.cs:7-29 | the back-to-front scan with a seen-set and a stack returns exactly the last event of each non-null name, in input order; a batch of at most one event is returned as it is |
| InpcExtensions.SurvivorsCharacterize | Stellar3/InpcExtensions.cs:18-28 | the kept events are the input events at a strictly ascending list of positions, and a position is in that list iff its event is the last one of its name |
| InpcExtensions.DistinctKeepsLastOccurrences | Stellar3/InpcExtensions.cs:7-29 | for two or more events the result is the subsequence of last occurrences: input order is kept, and a position survives iff its name is non-null and does not occur later |
| InpcExtensions.DistinctNamesAreUnique | Stellar3/InpcExtensions.cs:15-25 | for two or more events no two survivors share a name and no survivor has a null name |
| InpcExtensions.DistinctPreservesNameSet | Stellar3/InpcExtensions.cs:15-25 | every non-null name of the input is still represented, and no name is invented |
| InpcExtensions.LastWithName | Stellar3/InpcExtensions.cs:18-25 | every non-null name that occurs has a last occurrence at or after any given occurrence |
| InpcExtensions.KeepLastOfDistinctIsIdentity | Stellar3/InpcExtensions.cs:18-25 | events with distinct non-null names pass the scan untouched |
| InpcExtensions.DistinctIsIdempotent | Stellar3/InpcExtensions.cs:7-29 | deduplicating an already deduplicated batch changes nothing |
| InpcExtensions.KeepLastCommutesWithMap | Stellar3/InpcExtensions.cs:31-53 | converting the events with a name-preserving map before or after the scan gives the same result |
| InpcExtensions.DistinctOverloadsAgree | Stellar3/InpcExtensions.cs:31-53 | the changing overload keeps the same events as the changed overload on batches carrying the same names |
| RxObject.AreChangeNotificationsEnabled | Stellar3/RxObject.cs:62 | the test on the lazily created record and its suppression counter; in every reachable state it holds exactly when no suppression scope is open |
| RxObject.AreChangeNotificationsDelayed | Stellar3/RxObject.cs:65 | the test on the lazily created record and its delay counter; in every reachable state it holds exactly when some delay scope is open |
| RxObject.NewObject | Stellar3/RxObject.cs:8 | a new object has no notification record, so it satisfies the invariant and notifications are enabled and not delayed |
| RxObject.GuardsReflectOpenScopes | Stellar3/RxObject.cs:62-65 | collects the two guards' postconditions in one statement: in any reachable state, notifications are enabled iff no suppression scope is open, and delayed iff some delay scope is open |
| RxObject.SuppressChangeNotifications | Stellar3/RxObject.cs:68-73 | creates the record, counts one more suppression, hands out a handle not already open, disables notifications, and keeps the invariant |
| RxObject.ReleaseSuppression | Stellar3/RxObject.cs:72 | the first release of an open handle uncounts it and replays nothing; releasing a handle that is not open changes nothing |
| RxObject.DelayChangeNotifications | Stellar3/RxObject.cs:76-79 | creates the record, counts one more delay, hands out a handle not already open, makes notifications delayed, and keeps the invariant |
| RxObject.ReleaseDelay | Stellar3/RxObject.cs:80-101 | an inner release only uncounts and keeps the buffers; the outermost release raises the deduplicated changing events, then the deduplicated changed events, then empties both buffers; an unknown handle changes nothing |
| RxObject.RaisePropertyChanging | Stellar3/RxObject.cs:108-122 | while suppressed the raise is dropped; while delayed it is appended to the changing buffer and not raised; otherwise it is raised at once; the invariant is kept |
| RxObject.RaisePropertyChanged | Stellar3/RxObject.cs:128-142 | as for changing, on the changed buffer and event |
| RxObject.RaiseAndSetIfChanged | Stellar3/RxObject.cs:167-185 | a null name throws ArgumentNullException("propertyName"); an equal value changes nothing; otherwise: changing raise, then assignment, then changed raise, each under the current regime |
| RxObject.SuppressedRaisesAreDropped | Stellar3/RxObject.cs:110-113 | any number of raises while suppressed is a complete no-op |
| RxObject.DelayedRaisesAreBuffered | Stellar3/RxObject.cs:115-119 | while delayed, a sequence of raises fills the two buffers with exactly its changing and its changed events, in order, and raises nothing |
| RxObject.ImmediateRaisesAreEmitted | Stellar3/RxObject.cs:121 | with neither guard active, a sequence of raises is passed on one for one, in order |
| RxObject.DelayBatchFlushesChangingBeforeChanged | Stellar3/RxObject.cs:76-102 | delay, raise, release: exactly the deduplicated changing events of the batch, then its deduplicated changed events; the object ends with no scope open and empty buffers |
| RxObject.SuppressionDropsWithoutReplay | Stellar3/RxObject.cs:68-73 | suppress, raise, release: nothing was raised and nothing is replayed afterwards, and notifications are enabled again |
| RxObject.NestedDelayReleaseKeepsBuffers | Stellar3/RxObject.cs:83-86 | releasing the inner of two delay scopes raises nothing and keeps every buffered event |
| RxObject.DelayBatchExample | Stellar3/RxObject.cs:93-96 | changed events for X, X, Y raised under a delay come out as one event for X and then one for Y |
| NotifyPropertyChangedExtensions.Cascade | Stellar3/PropertyChanged/NotifyPropertyChangedExtensions.cs:127-151 | re-subscribing from a level never touches the levels above it; it emits at most one value, only if it reaches the last level, and that value is the current member of the object the last level now listens to |
| NotifyPropertyChangedExtensions.Deliver | Stellar3/PropertyChanged/NotifyPropertyChangedExtensions.cs:137-143 | one PropertyChanged raise yields at most one value; that value is the current leaf member of the object the last level listens to; its sender is the raise's sender or that object |
| NotifyPropertyChangedExtensions.CascadeFollowsPath | Stellar3/PropertyChanged/NotifyPropertyChangedExtensions.cs:60-64 | starting from a level's true parent, every deeper level is attached to its true parent and the emitted value is the current value at the end of the path (none if a link is null) |
| NotifyPropertyChangedExtensions.SubscribeEmitsCurrentValue | Stellar3/PropertyChanged/NotifyPropertyChangedExtensions.cs:37-57 | subscribing emits the path's current value once, with its holder as sender, or nothing if a link is null, and attaches every level to its true parent |
| NotifyPropertyChangedExtensions.DeliverSilent | Stellar3/PropertyChanged/NotifyPropertyChangedExtensions.cs:137-143 | a raise that no attached handler listens for changes nothing and emits nothing |
| NotifyPropertyChangedExtensions.RaiseWithoutListenerIsSilent | Stellar3/PropertyChanged/NotifyPropertyChangedExtensions.cs:139 | raises with a null name, on an object no level listens to (such as a parent that was switched away from), or naming a member no level on that object watches, have no effect |
| NotifyPropertyChangedExtensions.LastLevelKeepsRaiseSender | Stellar3/PropertyChanged/NotifyPropertyChangedExtensions.cs:163-168 | when the raise passes every upper level and fires the last one, the single emission is (the raise's own sender, the current leaf member of the raising object), and no level moves |
| NotifyPropertyChangedExtensions.UpperLevelEmitsHolder | Stellar3/PropertyChanged/NotifyPropertyChangedExtensions.cs:163-171 | a raise of a member other than the leaf member can fire only upper levels, and every value it produces comes from the re-subscribed last level with the object that level now listens to as sender, whatever the raise's sender was |
| NotifyPropertyChangedExtensions.DeliverTracksWrite | Stellar3/PropertyChanged/NotifyPropertyChangedExtensions.cs:60-64 | with a null parent detaching its level, a setter's raise re-attaches every level to its new true parent and emits only the new leaf, and always emits it when the leaf changed |
| NotifyPropertyChangedExtensions.DetachingSetTracksPath | Stellar3/PropertyChanged/NotifyPropertyChangedExtensions.cs:60-64 | one setter call against the detaching stream: the write lands, the handlers follow the new path, and the output grows by nothing or by the new leaf; a changed leaf is always emitted |
| NotifyPropertyChangedExtensions.DetachingStreamStaysCurrent | Stellar3/PropertyChanged/NotifyPropertyChangedExtensions.cs:27-70 | after subscribing and any sequence of setter calls, the detaching stream listens exactly along the current path, and whenever the path resolves its latest value is the current leaf |
| NotifyPropertyChangedExtensions.NothingAfterDispose | Stellar3/PropertyChanged/NotifyPropertyChangedExtensions.cs:149 | once every handler is detached, no trace of writes and raises emits anything |
| NotifyPropertyChangedExtensions.NullRootNeverEmits | Stellar3/PropertyChanged/NotifyPropertyChangedExtensions.cs:37 | a null object to monitor is accepted, and its stream never emits |
| NotifyPropertyChangedExtensions.StaleParentStillEmits | Stellar3/PropertyChanged/NotifyPropertyChangedExtensions.cs:53-64 | as written, after root.A becomes null, a change to the old A.B is still emitted although the path no longer resolves |
| NotifyPropertyChangedExtensions.NullParentDetaches | Stellar3/PropertyChanged/NotifyPropertyChangedExtensions.cs:53-64 | when a null parent detaches its level, the same scenario emits nothing after the initial value |
| NotifyPropertyChangedExtensions.WhenChangedWithSender | Stellar3/PropertyChanged/NotifyPropertyChangedExtensions.cs:82-125 | a null expression throws ArgumentNullException("propertyExpression"), an empty chain throws ArgumentException; the call succeeds otherwise, and with nothing happening afterwards it delivers exactly the current (holder, value) at the end of the path |
| NotifyPropertyChangedExtensions.WhenChanged | Stellar3/PropertyChanged/NotifyPropertyChangedExtensions.cs:27-70 | the same checks, then the same values as WhenChangedWithSender without senders; with nothing happening afterwards, exactly the current value at the end of the path |
| NotifyPropertyChangedExtensions.RunHeap | Stellar3/PropertyChanged/NotifyPropertyChangedExtensions.cs:27-70 | observing a path never changes the heap: after a sequence of setter calls it is what those writes make it |
| NotifyPropertyChangedExtensions.WhenChangedReportsCurrentValue | Stellar3/PropertyChanged/NotifyPropertyChangedExtensions.cs:27-70 | after any sequence of setter calls, whenever the path resolves, the latest value WhenChanged has delivered is the current value at its end |
| BindExtensions.SkipFirst | Stellar3/PropertyChanged/BindExtensions.cs:139-140 | every value except the first, in order |
| BindExtensions.OneWayBindImplementation | Stellar3/PropertyChanged/BindExtensions.cs:193-222 | a null source throws for "hostObs", a null expression for "property", and a body that is not a member access throws ArgumentException; otherwise each source value becomes one setter call on the target, in order |
| BindExtensions.BindOneWayConverted | Stellar3/PropertyChanged/BindExtensions.cs:60-78 | a null host throws for "fromObject", then the host expression's checks, then the target expression's; on success the target receives the converted host values one for one |
| BindExtensions.BindOneWay | Stellar3/PropertyChanged/BindExtensions.cs:29-43 | the same checks; on success the target receives the host values one for one |
| BindExtensions.BindTwoWayImplementation | Stellar3/PropertyChanged/BindExtensions.cs:145-191 | checks in the order hostObs, toProperty, fromProperty (nulls), then toProperty, fromProperty (member access); on success host values go to the target's setter and target values to the host's setter, one for one |
| BindExtensions.BindTwoWayConverted | Stellar3/PropertyChanged/BindExtensions.cs:96-114 | the host expression's WhenChanged checks, then the target's, then the member-access checks (target first); neither object is checked for null; the target gets every converted host value, and the host gets every converted target value except the first |
| BindExtensions.BindTwoWay | Stellar3/PropertyChanged/BindExtensions.cs:129-143 | as the converted overload, without conversion |
| BindExtensions.OneWayOverloadsAgree | Stellar3/PropertyChanged/BindExtensions.cs:29-78 | the unconverted one-way binding is the converted one with the identity converter, errors included |
| BindExtensions.TwoWayOverloadsAgree | Stellar3/PropertyChanged/BindExtensions.cs:96-143 | the unconverted two-way binding is the converted one with identity converters in both directions, errors included |
| BindExtensions.OneWayInitialWrite | Stellar3/PropertyChanged/BindExtensions.cs:42 | binding writes the host's current value to the target once when the host path resolves, and writes nothing when it does not |
| BindExtensions.TwoWayHostWinsFirst | Stellar3/PropertyChanged/BindExtensions.cs:138-142 | on binding, the target receives the host's current value and nothing is written back to the host, although the target's stream also emits its own current value |
| BindExtensions.TwoWayAcceptsNullHost | Stellar3/PropertyChanged/BindExtensions.cs:129-143 | a null host is rejected by BindOneWay but accepted by BindTwoWay, whose host side then never writes to the target |

## Left out

- Threads and atomicity: the `Interlocked` counter operations and concurrent raises are modelled as sequential steps.
- `Lazy<Notifications>`: the record is modelled as a `created` flag and its contents, created by the first scope request.
- Counters are `long` in the code. They are unbounded integers here, because 2^63 nested scopes cannot occur.
- Raises are modelled by their event arguments. The string overloads of the two raise methods only wrap the name, so the model folds them into the argument overloads. Those overloads are `protected virtual`, and `RaiseAndSetIfChanged` calls them through virtual dispatch. The folding assumes no subclass overrides them.
- The `ObservableList` change notifications of the two buffers are not modelled; only their contents are.
- The `Changed` / `Changing` observables of RxObject and their subscriptions are not modelled; subscribers are represented by the effect log.
- Re-entrant raises from event handlers during a flush are not modelled. A handler that mutates the buffers while the flush enumerates them is outside the model.
- R3 operator internals (`Observable.Return`, `CombineLatest`, `Switch`, `Create`, `Skip`, `Select`, `ObserveOn`) are modelled only by the behaviour they give the streams above. `ObserveOn` with a `TimeProvider` is treated as the identity: the rescheduled stream delivers the same values in the same order.
- `GetExpressionChain` and `GetSetter` are not part of this model. An expression carries its resolved member chain as given, and a setter call is recorded as (target, member chain, value) rather than executed.
- The `ArgumentException("Invalid expression")` at the end of WhenChanged (lines 69 and 124) is unreachable once the chain is non-empty, and is not modelled. The `hostObs is null` checks are modelled in `OneWayBindImplementation` and `BindTwoWayImplementation`. They cannot fail when reached from the four public overloads, because every one of them passes a stream built by WhenChanged.
- The setters a binding calls are not fed back into the trace. A two-way binding's write to the target, and the notification it may cause, are reported as setter calls only, so feedback loops between the two sides are not modelled.
- A null `conversionFunc` / converter fails inside R3, in code outside the core, and is not modelled. A null target object in BindOneWay, and a null host or target object in BindTwoWay, would fail at the first setter call on that object. The model only records such calls as `SetterCall` values addressed to `Null` (see `TwoWayAcceptsNullHost`); it does not model the failure.
- Handler order on a shared object is simplified. When several levels of one path listen to the same object for the same member name (a path that revisits an object), the model runs them outer level first. In the code the order follows the order of attachment. WhenChanged attaches before its initial emission; WhenChangedWithSender attaches after it. This can change the output. For `x => x.A.A` with `root.A == root`, WhenChangedWithSender attaches the last level's handler before level 0's, so in the code a raise of "A" first fires the last level, which emits (sender, root.A), and level 0 then re-subscribes the last level, which emits (root, root.A) again. The model delivers at most one value per raise (`Deliver` ensures `|d.out| <= 1`), so it omits that second emission. On such self-referencing paths WhenChanged and WhenChangedWithSender can also deliver different values in the code.
- A path can reach plain data where an object is expected in the middle, for example `x => x.Name.Length` with a `string` `Name`, since only `TObj` is constrained. What the code then does depends on `GetMemberFuncCache`, which is not part of this model. The model treats such a value like null: the levels below it are detached and nothing is emitted.
- The benchmark program and the MAUI test app are outside the core.
- RxObject.RaiseAndSetIfChanged: `EqualityComparer<T>.Default.Equals` is modelled as Dafny equality. A type whose custom `Equals` differs from structural equality can make the code skip an assignment that the model performs, or perform one that the model skips.
- NotifyPropertyChangedExtensions.Deliver: its own ensures allows either sender for an emission. Which one applies is stated by `LastLevelKeepsRaiseSender` and `UpperLevelEmitsHolder`.
- NotifyPropertyChangedExtensions.WhenChangedWithSender: the values after the initial one follow the corrected mode (a null link detaches the levels below it), not the code as written. See Findings.
- NotifyPropertyChangedExtensions.WhenChanged: the values after the initial one follow the corrected mode, not the code as written. See Findings.
- BindExtensions.BindOneWay: the host values come from WhenChanged in the corrected mode, not the code as written. See Findings.
- BindExtensions.BindOneWayConverted: the host values come from WhenChanged in the corrected mode, not the code as written. See Findings.
- BindExtensions.BindTwoWay: both sides' values come from WhenChanged in the corrected mode, not the code as written. See Findings.
- BindExtensions.BindTwoWayConverted: both sides' values come from WhenChanged in the corrected mode, not the code as written. See Findings.

## Findings

| source | as written | input that shows it | evidently intended | confidence | as-written member | corrected member |
|---|---|---|---|---|---|---|
| Stellar3/PropertyChanged/NotifyPropertyChangedExtensions.cs:53-64 | `Where(value is not null)` runs before `Switch` (lines 55 and 57 for the last level, 62 and 64 for the others), so a null intermediate value never reaches the switch, and the previous inner subscription stays attached to the old object | path `x => x.A.B` on root r with r.A = o1 and o1.B = 1; set r.A = null, then o1.B = 2: the stream emits 2 although r.A.B no longer resolves | a null link silences the levels below it until a non-null object reappears | high, not executed | NotifyPropertyChangedExtensions.StaleParentStillEmits | NotifyPropertyChangedExtensions.DetachingStreamStaysCurrent |

The corrected behaviour is the `detach = true` mode of the same definitions: a null value at a
level disposes that level and every deeper one. `NullParentDetaches` shows the scenario above in
that mode. `WhenChanged`, `WhenChangedWithSender` and the bindings use this mode, and
`WhenChangedReportsCurrentValue` lifts the corrected property to the public operation.
