/*******************************************************************************
 *  BindOneWay / BindTwoWay: argument validation, in the order the core
 *  performs it, and the setter calls a binding makes for the values its
 *  source streams deliver.
 *
 *  The host stream is `fromObject.WhenChanged(fromProperty)` (optionally
 *  converted); in a two-way binding the target stream is
 *  `targetObject.WhenChanged(toProperty)` with its first value skipped, so
 *  that the host's value wins the initial synchronisation. Both streams are
 *  taken over the same heap and trace of steps; the binding's own setter
 *  calls are reported, not fed back into that trace.
 *******************************************************************************/

module BindExtensions {
  import opened Common
  import opened NotifyPropertyChangedExtensions

  const InvalidMember: string := "The expression does not bind to a valid member."

  /** One invocation of a compiled property setter: `setter(target, value)`
      on the member chain of the bound expression. */
  datatype SetterCall<O, T> = SetterCall(target: O, property: seq<Name>, value: T)

  /** The two subscriptions of a two-way binding: host values written to the
      target, and target values written back to the host. */
  datatype TwoWay<O1, O2, A, B> = TwoWay(hostToTarget: seq<SetterCall<O2, B>>, targetToHost: seq<SetterCall<O1, A>>)

  /** A non-null expression whose body is a member access. */
  predicate BindsMember(p: Option<PropertyExpression>)
  {
    p.Some? && p.value.body.Member?
  }

  /** What WhenChanged accepts: a non-null expression with a non-empty chain. */
  predicate Monitorable(p: Option<PropertyExpression>)
  {
    p.Some? && p.value.chain != []
  }

  /** `Skip(1)`: every value but the first. */
  function SkipFirst<T>(s: seq<T>): (r: seq<T>)
    ensures |r| == if s == [] then 0 else |s| - 1
    ensures forall i :: 0 <= i < |r| ==> r[i] == s[i + 1]
  {
    if s == [] then [] else s[1..]
  }

  function Identity(v: Value): Value
  {
    v
  }

  /** The shared tail of both one-way overloads. */
  function OneWayBindImplementation<O, T>(targetObject: O, hostObs: Option<seq<T>>, property: Option<PropertyExpression>)
    : (r: Result<seq<SetterCall<O, T>>>)
    ensures hostObs.None? ==> r == Failure(ArgumentNull("hostObs"))
    ensures hostObs.Some? && property.None? ==> r == Failure(ArgumentNull("property"))
    ensures hostObs.Some? && property.Some? && !property.value.body.Member? ==>
      r == Failure(Argument(InvalidMember, None))
    ensures r.Success? <==> hostObs.Some? && BindsMember(property)
    ensures r.Success? ==>
      && |r.value| == |hostObs.value|
      && forall i :: 0 <= i < |r.value| ==>
           r.value[i] == SetterCall(targetObject, property.value.chain, hostObs.value[i])
  {
    if hostObs.None? then Failure(ArgumentNull("hostObs"))
    else if property.None? then Failure(ArgumentNull("property"))
    else if !property.value.body.Member? then Failure(Argument(InvalidMember, None))
    else Success(Map((x: T) => SetterCall(targetObject, property.value.chain, x), hostObs.value))
  }

  /** BindOneWay with a converter from the host property to the target property. */
  function BindOneWayConverted(h: Heap, fromObject: Value, targetObject: Value,
                               fromProperty: Option<PropertyExpression>, toProperty: Option<PropertyExpression>,
                               conversionFunc: Value -> Value, trace: seq<Step>)
    : (r: Result<seq<SetterCall<Value, Value>>>)
    ensures fromObject == Null ==> r == Failure(ArgumentNull("fromObject"))
    ensures fromObject != Null && !Monitorable(fromProperty) ==>
      r == Failure(ResolveChain(fromProperty).error)
    ensures fromObject != Null && Monitorable(fromProperty) && toProperty.None? ==>
      r == Failure(ArgumentNull("property"))
    ensures fromObject != Null && Monitorable(fromProperty) && toProperty.Some? && !toProperty.value.body.Member? ==>
      r == Failure(Argument(InvalidMember, None))
    ensures r.Success? <==> fromObject != Null && Monitorable(fromProperty) && BindsMember(toProperty)
    ensures r.Success? ==>
      var hostValues := WhenChanged(h, fromObject, fromProperty, trace).value;
      && |r.value| == |hostValues|
      && forall i :: 0 <= i < |r.value| ==>
           r.value[i] == SetterCall(targetObject, toProperty.value.chain, conversionFunc(hostValues[i]))
  {
    if fromObject == Null then Failure(ArgumentNull("fromObject"))
    else match WhenChanged(h, fromObject, fromProperty, trace)
      case Failure(e) => Failure(e)
      case Success(values) => OneWayBindImplementation(targetObject, Some(Map(conversionFunc, values)), toProperty)
  }

  /** BindOneWay: the host property's values written to the target as they are. */
  function BindOneWay(h: Heap, fromObject: Value, targetObject: Value,
                      fromProperty: Option<PropertyExpression>, toProperty: Option<PropertyExpression>,
                      trace: seq<Step>)
    : (r: Result<seq<SetterCall<Value, Value>>>)
    ensures fromObject == Null ==> r == Failure(ArgumentNull("fromObject"))
    ensures fromObject != Null && !Monitorable(fromProperty) ==>
      r == Failure(ResolveChain(fromProperty).error)
    ensures fromObject != Null && Monitorable(fromProperty) && toProperty.None? ==>
      r == Failure(ArgumentNull("property"))
    ensures fromObject != Null && Monitorable(fromProperty) && toProperty.Some? && !toProperty.value.body.Member? ==>
      r == Failure(Argument(InvalidMember, None))
    ensures r.Success? <==> fromObject != Null && Monitorable(fromProperty) && BindsMember(toProperty)
    ensures r.Success? ==>
      var hostValues := WhenChanged(h, fromObject, fromProperty, trace).value;
      && |r.value| == |hostValues|
      && forall i :: 0 <= i < |r.value| ==>
           r.value[i] == SetterCall(targetObject, toProperty.value.chain, hostValues[i])
  {
    if fromObject == Null then Failure(ArgumentNull("fromObject"))
    else match WhenChanged(h, fromObject, fromProperty, trace)
      case Failure(e) => Failure(e)
      case Success(values) => OneWayBindImplementation(targetObject, Some(values), toProperty)
  }

  /** The shared tail of both two-way overloads. Neither object is checked
      for null; the target-side expression is checked before the host-side
      one. */
  function BindTwoWayImplementation<O1, O2, A, B>(
      fromObject: O1, targetObject: O2, hostObs: Option<seq<B>>, targetObs: seq<A>,
      fromProperty: Option<PropertyExpression>, toProperty: Option<PropertyExpression>)
    : (r: Result<TwoWay<O1, O2, A, B>>)
    ensures hostObs.None? ==> r == Failure(ArgumentNull("hostObs"))
    ensures hostObs.Some? && toProperty.None? ==> r == Failure(ArgumentNull("toProperty"))
    ensures hostObs.Some? && toProperty.Some? && fromProperty.None? ==> r == Failure(ArgumentNull("fromProperty"))
    ensures hostObs.Some? && toProperty.Some? && fromProperty.Some? && !toProperty.value.body.Member? ==>
      r == Failure(Argument(InvalidMember, None))
    ensures hostObs.Some? && BindsMember(toProperty) && fromProperty.Some? && !fromProperty.value.body.Member? ==>
      r == Failure(Argument(InvalidMember, None))
    ensures r.Success? <==> hostObs.Some? && BindsMember(toProperty) && BindsMember(fromProperty)
    ensures r.Success? ==>
      && |r.value.hostToTarget| == |hostObs.value|
      && (forall i :: 0 <= i < |hostObs.value| ==>
            r.value.hostToTarget[i] == SetterCall(targetObject, toProperty.value.chain, hostObs.value[i]))
      && |r.value.targetToHost| == |targetObs|
      && (forall i :: 0 <= i < |targetObs| ==>
            r.value.targetToHost[i] == SetterCall(fromObject, fromProperty.value.chain, targetObs[i]))
  {
    if hostObs.None? then Failure(ArgumentNull("hostObs"))
    else if toProperty.None? then Failure(ArgumentNull("toProperty"))
    else if fromProperty.None? then Failure(ArgumentNull("fromProperty"))
    else if !toProperty.value.body.Member? then Failure(Argument(InvalidMember, None))
    else if !fromProperty.value.body.Member? then Failure(Argument(InvalidMember, None))
    else
      var toChain, fromChain := toProperty.value.chain, fromProperty.value.chain;
      Success(TwoWay(
        Map((x: B) => SetterCall(targetObject, toChain, x), hostObs.value),
        Map((x: A) => SetterCall(fromObject, fromChain, x), targetObs)))
  }

  /** BindTwoWay with converters in both directions. */
  function BindTwoWayConverted(h: Heap, fromObject: Value, targetObject: Value,
                               fromProperty: Option<PropertyExpression>, toProperty: Option<PropertyExpression>,
                               hostToTargetConv: Value -> Value, targetToHostConv: Value -> Value,
                               trace: seq<Step>)
    : (r: Result<TwoWay<Value, Value, Value, Value>>)
    ensures !Monitorable(fromProperty) ==> r == Failure(ResolveChain(fromProperty).error)
    ensures Monitorable(fromProperty) && !Monitorable(toProperty) ==> r == Failure(ResolveChain(toProperty).error)
    ensures Monitorable(fromProperty) && Monitorable(toProperty) && !toProperty.value.body.Member? ==>
      r == Failure(Argument(InvalidMember, None))
    ensures Monitorable(fromProperty) && Monitorable(toProperty) && toProperty.value.body.Member?
            && !fromProperty.value.body.Member? ==>
      r == Failure(Argument(InvalidMember, None))
    ensures r.Success? <==>
      Monitorable(fromProperty) && Monitorable(toProperty) && BindsMember(fromProperty) && BindsMember(toProperty)
    ensures r.Success? ==>
      var hostValues := WhenChanged(h, fromObject, fromProperty, trace).value;
      var targetValues := WhenChanged(h, targetObject, toProperty, trace).value;
      && |r.value.hostToTarget| == |hostValues|
      && (forall i :: 0 <= i < |hostValues| ==>
            r.value.hostToTarget[i] == SetterCall(targetObject, toProperty.value.chain, hostToTargetConv(hostValues[i])))
      && |r.value.targetToHost| == (if targetValues == [] then 0 else |targetValues| - 1)
      && (forall i :: 0 <= i < |r.value.targetToHost| ==>
            r.value.targetToHost[i] == SetterCall(fromObject, fromProperty.value.chain, targetToHostConv(targetValues[i + 1])))
  {
    match WhenChanged(h, fromObject, fromProperty, trace)
    case Failure(e) => Failure(e)
    case Success(hostValues) =>
      match WhenChanged(h, targetObject, toProperty, trace)
      case Failure(e) => Failure(e)
      case Success(targetValues) =>
        BindTwoWayImplementation(fromObject, targetObject, Some(Map(hostToTargetConv, hostValues)),
                                 Map(targetToHostConv, SkipFirst(targetValues)), fromProperty, toProperty)
  }

  /** BindTwoWay: both properties have the same type; values cross unconverted. */
  function BindTwoWay(h: Heap, fromObject: Value, targetObject: Value,
                      fromProperty: Option<PropertyExpression>, toProperty: Option<PropertyExpression>,
                      trace: seq<Step>)
    : (r: Result<TwoWay<Value, Value, Value, Value>>)
    ensures !Monitorable(fromProperty) ==> r == Failure(ResolveChain(fromProperty).error)
    ensures Monitorable(fromProperty) && !Monitorable(toProperty) ==> r == Failure(ResolveChain(toProperty).error)
    ensures Monitorable(fromProperty) && Monitorable(toProperty) && !toProperty.value.body.Member? ==>
      r == Failure(Argument(InvalidMember, None))
    ensures Monitorable(fromProperty) && Monitorable(toProperty) && toProperty.value.body.Member?
            && !fromProperty.value.body.Member? ==>
      r == Failure(Argument(InvalidMember, None))
    ensures r.Success? <==>
      Monitorable(fromProperty) && Monitorable(toProperty) && BindsMember(fromProperty) && BindsMember(toProperty)
    ensures r.Success? ==>
      var hostValues := WhenChanged(h, fromObject, fromProperty, trace).value;
      var targetValues := WhenChanged(h, targetObject, toProperty, trace).value;
      && |r.value.hostToTarget| == |hostValues|
      && (forall i :: 0 <= i < |hostValues| ==>
            r.value.hostToTarget[i] == SetterCall(targetObject, toProperty.value.chain, hostValues[i]))
      && r.value.targetToHost == Map((x: Value) => SetterCall(fromObject, fromProperty.value.chain, x), SkipFirst(targetValues))
  {
    match WhenChanged(h, fromObject, fromProperty, trace)
    case Failure(e) => Failure(e)
    case Success(hostValues) =>
      match WhenChanged(h, targetObject, toProperty, trace)
      case Failure(e) => Failure(e)
      case Success(targetValues) =>
        BindTwoWayImplementation(fromObject, targetObject, Some(hostValues), SkipFirst(targetValues),
                                 fromProperty, toProperty)
  }

  // ---------------------------------------------------------------------
  // Properties of the bindings.
  // ---------------------------------------------------------------------

  /** The unconverted overloads are the converted ones with the identity. */
  lemma OneWayOverloadsAgree(h: Heap, fromObject: Value, targetObject: Value,
                             fromProperty: Option<PropertyExpression>, toProperty: Option<PropertyExpression>,
                             trace: seq<Step>)
    ensures BindOneWay(h, fromObject, targetObject, fromProperty, toProperty, trace)
         == BindOneWayConverted(h, fromObject, targetObject, fromProperty, toProperty, Identity, trace)
  {
    var r := BindOneWay(h, fromObject, targetObject, fromProperty, toProperty, trace);
    var c := BindOneWayConverted(h, fromObject, targetObject, fromProperty, toProperty, Identity, trace);
    if r.Success? {
      assert r.value == c.value;
    }
  }

  lemma TwoWayOverloadsAgree(h: Heap, fromObject: Value, targetObject: Value,
                             fromProperty: Option<PropertyExpression>, toProperty: Option<PropertyExpression>,
                             trace: seq<Step>)
    ensures BindTwoWay(h, fromObject, targetObject, fromProperty, toProperty, trace)
         == BindTwoWayConverted(h, fromObject, targetObject, fromProperty, toProperty, Identity, Identity, trace)
  {
    var r := BindTwoWay(h, fromObject, targetObject, fromProperty, toProperty, trace);
    var c := BindTwoWayConverted(h, fromObject, targetObject, fromProperty, toProperty, Identity, Identity, trace);
    if r.Success? {
      assert r.value.hostToTarget == c.value.hostToTarget;
      assert r.value.targetToHost == c.value.targetToHost;
    }
  }

  /** On binding, before anything changes, a one-way binding writes the
      host's current value to the target once if the host path resolves,
      and writes nothing if it does not. */
  lemma OneWayInitialWrite(h: Heap, fromObject: Value, targetObject: Value,
                           fromProperty: Option<PropertyExpression>, toProperty: Option<PropertyExpression>)
    requires fromObject != Null && Monitorable(fromProperty) && BindsMember(toProperty)
    ensures var r := BindOneWay(h, fromObject, targetObject, fromProperty, toProperty, []);
            var leaf := Leaf(h, fromProperty.value.chain, fromObject);
      && r.Success?
      && |r.value| == |leaf|
      && (leaf != [] ==> r.value == [SetterCall(targetObject, toProperty.value.chain, leaf[0].value)])
  {
    var r := BindOneWay(h, fromObject, targetObject, fromProperty, toProperty, []);
    var leaf := Leaf(h, fromProperty.value.chain, fromObject);
    assert WhenChanged(h, fromObject, fromProperty, []).value == Values(leaf);
  }

  /** The host wins the initial synchronisation of a two-way binding: the
      target receives the host's current value, and nothing is written back
      to the host, even though the target's WhenChanged also emits its
      current value on subscription. */
  lemma TwoWayHostWinsFirst(h: Heap, fromObject: Value, targetObject: Value,
                            fromProperty: Option<PropertyExpression>, toProperty: Option<PropertyExpression>)
    requires Monitorable(fromProperty) && Monitorable(toProperty) && BindsMember(fromProperty) && BindsMember(toProperty)
    ensures var r := BindTwoWay(h, fromObject, targetObject, fromProperty, toProperty, []);
            var leaf := Leaf(h, fromProperty.value.chain, fromObject);
      && r.Success?
      && r.value.targetToHost == []
      && |r.value.hostToTarget| == |leaf|
      && (leaf != [] ==> r.value.hostToTarget == [SetterCall(targetObject, toProperty.value.chain, leaf[0].value)])
  {
    var r := BindTwoWay(h, fromObject, targetObject, fromProperty, toProperty, []);
    var leaf := Leaf(h, fromProperty.value.chain, fromObject);
    assert WhenChanged(h, fromObject, fromProperty, []).value == Values(leaf);
    assert |WhenChanged(h, targetObject, toProperty, []).value| <= 1;
  }

  /** Unlike BindOneWay, BindTwoWay accepts a null host: the binding is
      created, and the host side never writes anything to the target. */
  lemma TwoWayAcceptsNullHost(h: Heap, targetObject: Value,
                              fromProperty: Option<PropertyExpression>, toProperty: Option<PropertyExpression>,
                              trace: seq<Step>)
    requires Monitorable(fromProperty) && Monitorable(toProperty) && BindsMember(fromProperty) && BindsMember(toProperty)
    ensures BindOneWay(h, Null, targetObject, fromProperty, toProperty, trace) == Failure(ArgumentNull("fromObject"))
    ensures var r := BindTwoWay(h, Null, targetObject, fromProperty, toProperty, trace);
      r.Success? && r.value.hostToTarget == []
  {
    NullRootNeverEmits(true, h, fromProperty.value.chain, trace);
  }
}
