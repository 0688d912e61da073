/*******************************************************************************
 *  DistinctEvents: collapse a batch of property-change notifications to the
 *  last notification per property name.
 *
 *  The algorithm is stated once, generically over the event type and a
 *  function reading an event's (nullable) property name; the two overloads,
 *  over changed and over changing event arguments, are instances of it.
 *******************************************************************************/

module InpcExtensions {
  import opened Common

  datatype PropertyChangedEventArgs = PropertyChangedEventArgs(propertyName: Option<Name>)
  datatype PropertyChangingEventArgs = PropertyChangingEventArgs(propertyName: Option<Name>)

  function ChangedName(e: PropertyChangedEventArgs): Option<Name> { e.propertyName }
  function ChangingName(e: PropertyChangingEventArgs): Option<Name> { e.propertyName }

  /** Event `i` has a non-null name and no later event carries that name. */
  predicate IsLast<T>(events: seq<T>, nameOf: T -> Option<Name>, i: nat)
    requires i < |events|
  {
    && nameOf(events[i]).Some?
    && forall j :: i < j < |events| ==> nameOf(events[j]) != nameOf(events[i])
  }

  /** The non-null names carried by the events at positions `lo` and later. */
  ghost function NamesFrom<T>(events: seq<T>, nameOf: T -> Option<Name>, lo: nat): set<Name>
    requires lo <= |events|
  {
    set i | lo <= i < |events| && nameOf(events[i]).Some? :: nameOf(events[i]).value
  }

  /** Reference definition: the events from position `lo` on that are the
      last of their name, in their original order. */
  function KeepLastFrom<T>(events: seq<T>, nameOf: T -> Option<Name>, lo: nat): (r: seq<T>)
    requires lo <= |events|
    ensures |r| <= |events| - lo
    ensures forall k :: 0 <= k < |r| ==> nameOf(r[k]).Some? && r[k] in events[lo..]
    decreases |events| - lo
  {
    if lo == |events| then []
    else if IsLast(events, nameOf, lo) then [events[lo]] + KeepLastFrom(events, nameOf, lo + 1)
    else KeepLastFrom(events, nameOf, lo + 1)
  }

  /** The positions of the events kept by `KeepLastFrom`, ascending. */
  function Survivors<T>(events: seq<T>, nameOf: T -> Option<Name>, lo: nat): seq<nat>
    requires lo <= |events|
    decreases |events| - lo
  {
    if lo == |events| then []
    else (if IsLast(events, nameOf, lo) then [lo] else []) + Survivors(events, nameOf, lo + 1)
  }

  /** What `DistinctEvents` returns: the input itself when it holds at most
      one event, otherwise the last event of every non-null name. */
  function Distinct<T>(events: seq<T>, nameOf: T -> Option<Name>): seq<T>
  {
    if |events| <= 1 then events else KeepLastFrom(events, nameOf, 0)
  }

  /** The overload over changed event arguments. */
  function DistinctChanged(events: seq<PropertyChangedEventArgs>): seq<PropertyChangedEventArgs>
  {
    Distinct(events, ChangedName)
  }

  /** The overload over changing event arguments. */
  function DistinctChanging(events: seq<PropertyChangingEventArgs>): seq<PropertyChangingEventArgs>
  {
    Distinct(events, ChangingName)
  }

  /** One step of the backwards scan: the name set grows by the event's
      name, and the event is the last of its name exactly when its name is
      non-null and was not seen among the later events. */
  lemma NamesFromStep<T>(events: seq<T>, nameOf: T -> Option<Name>, i: nat)
    requires i < |events|
    ensures NamesFrom(events, nameOf, i)
         == NamesFrom(events, nameOf, i + 1)
            + (if nameOf(events[i]).Some? then {nameOf(events[i]).value} else {})
    ensures IsLast(events, nameOf, i)
        <==> nameOf(events[i]).Some? && nameOf(events[i]).value !in NamesFrom(events, nameOf, i + 1)
  {
    var n := nameOf(events[i]);
    if n.Some? && n.value in NamesFrom(events, nameOf, i + 1) {
      var j :| i + 1 <= j < |events| && nameOf(events[j]).Some? && nameOf(events[j]).value == n.value;
      assert nameOf(events[j]) == n;
    }
  }

  /** The source algorithm: scan from the back, remember the names seen, and
      push every event whose name is non-null and new onto a stack; the
      stack, enumerated top first, is the result. */
  method DistinctEvents<T>(events: seq<T>, nameOf: T -> Option<Name>) returns (r: seq<T>)
    ensures r == Distinct(events, nameOf)
  {
    if |events| <= 1 {
      return events;
    }
    var seen: set<Name> := {};
    var uniqueEvents: seq<T> := [];
    var i := |events|;
    while i > 0
      invariant 0 <= i <= |events|
      invariant seen == NamesFrom(events, nameOf, i)
      invariant uniqueEvents == KeepLastFrom(events, nameOf, i)
    {
      i := i - 1;
      NamesFromStep(events, nameOf, i);
      var propertyName := nameOf(events[i]);
      if propertyName.Some? {
        if propertyName.value !in seen {
          uniqueEvents := [events[i]] + uniqueEvents;
        }
        seen := seen + {propertyName.value};
      }
    }
    r := uniqueEvents;
  }

  lemma {:induction false} SurvivorsBounded<T>(events: seq<T>, nameOf: T -> Option<Name>, lo: nat)
    requires lo <= |events|
    ensures forall i :: i in Survivors(events, nameOf, lo) ==> lo <= i < |events|
    decreases |events| - lo
  {
    if lo < |events| {
      SurvivorsBounded(events, nameOf, lo + 1);
    }
  }

  lemma {:induction false} SurvivorsSelect<T>(events: seq<T>, nameOf: T -> Option<Name>, lo: nat)
    requires lo <= |events|
    ensures var r, ix := KeepLastFrom(events, nameOf, lo), Survivors(events, nameOf, lo);
      && |r| == |ix|
      && forall k :: 0 <= k < |ix| ==> ix[k] < |events| && r[k] == events[ix[k]]
    decreases |events| - lo
  {
    if lo < |events| {
      SurvivorsSelect(events, nameOf, lo + 1);
      var r', ix' := KeepLastFrom(events, nameOf, lo + 1), Survivors(events, nameOf, lo + 1);
      if IsLast(events, nameOf, lo) {
        var r, ix := [events[lo]] + r', [lo] + ix';
        assert KeepLastFrom(events, nameOf, lo) == r && Survivors(events, nameOf, lo) == ix;
        forall k | 0 <= k < |ix| ensures ix[k] < |events| && r[k] == events[ix[k]] {
          if k > 0 {
            assert ix[k] == ix'[k - 1] && r[k] == r'[k - 1];
          }
        }
      } else {
        assert Survivors(events, nameOf, lo) == [] + ix' == ix';
      }
    }
  }

  predicate Ascending(ix: seq<nat>)
  {
    forall a, b :: 0 <= a < b < |ix| ==> ix[a] < ix[b]
  }

  lemma {:induction false} SurvivorsAscend<T>(events: seq<T>, nameOf: T -> Option<Name>, lo: nat)
    requires lo <= |events|
    ensures Ascending(Survivors(events, nameOf, lo))
    decreases |events| - lo
  {
    if lo < |events| {
      SurvivorsAscend(events, nameOf, lo + 1);
      SurvivorsBounded(events, nameOf, lo + 1);
      var ix' := Survivors(events, nameOf, lo + 1);
      if IsLast(events, nameOf, lo) {
        var ix := [lo] + ix';
        assert Survivors(events, nameOf, lo) == ix;
        forall a, b | 0 <= a < b < |ix| ensures ix[a] < ix[b] {
          assert ix[b] == ix'[b - 1] && ix'[b - 1] in ix';
          if a == 0 {
            assert ix[a] == lo;
          } else {
            assert ix[a] == ix'[a - 1];
          }
        }
      } else {
        assert Survivors(events, nameOf, lo) == [] + ix' == ix';
      }
    }
  }

  lemma {:induction false} SurvivorsAreLast<T>(events: seq<T>, nameOf: T -> Option<Name>, lo: nat)
    requires lo <= |events|
    ensures forall i :: lo <= i < |events| ==> (i in Survivors(events, nameOf, lo) <==> IsLast(events, nameOf, i))
    decreases |events| - lo
  {
    if lo < |events| {
      SurvivorsAreLast(events, nameOf, lo + 1);
      SurvivorsBounded(events, nameOf, lo + 1);
      var ix' := Survivors(events, nameOf, lo + 1);
      assert Survivors(events, nameOf, lo) == (if IsLast(events, nameOf, lo) then [lo] else []) + ix';
      assert lo !in ix';
    }
  }

  /** `KeepLastFrom` is exactly the events at the `Survivors` positions; those
      positions ascend, and a position is among them iff its event is the
      last of its name. */
  lemma SurvivorsCharacterize<T>(events: seq<T>, nameOf: T -> Option<Name>, lo: nat)
    requires lo <= |events|
    ensures var r, ix := KeepLastFrom(events, nameOf, lo), Survivors(events, nameOf, lo);
      && |r| == |ix|
      && (forall k :: 0 <= k < |ix| ==> lo <= ix[k] < |events| && r[k] == events[ix[k]])
      && (forall a, b :: 0 <= a < b < |ix| ==> ix[a] < ix[b])
      && (forall i :: lo <= i < |events| ==> (i in ix <==> IsLast(events, nameOf, i)))
  {
    SurvivorsBounded(events, nameOf, lo);
    SurvivorsSelect(events, nameOf, lo);
    SurvivorsAscend(events, nameOf, lo);
    SurvivorsAreLast(events, nameOf, lo);
    var ix := Survivors(events, nameOf, lo);
    forall k | 0 <= k < |ix| ensures lo <= ix[k] {
      assert ix[k] in ix;
    }
  }

  /** For two or more events, the output is the subsequence of the input at
      ascending positions `ix`, where `ix` holds exactly the positions whose
      event is the last one of its (non-null) name. */
  lemma {:induction false} DistinctKeepsLastOccurrences<T>(events: seq<T>, nameOf: T -> Option<Name>)
    requires |events| >= 2
    ensures var r, ix := Distinct(events, nameOf), Survivors(events, nameOf, 0);
      && (forall i :: 0 <= i < |events| ==> (i in ix <==> IsLast(events, nameOf, i)))
      && |r| == |ix|
      && (forall k :: 0 <= k < |ix| ==> ix[k] < |events| && r[k] == events[ix[k]])
      && (forall a, b :: 0 <= a < b < |ix| ==> ix[a] < ix[b])
  {
    SurvivorsCharacterize(events, nameOf, 0);
  }

  /** For two or more events, no two survivors share a name and none has a
      null name. */
  lemma DistinctNamesAreUnique<T>(events: seq<T>, nameOf: T -> Option<Name>)
    requires |events| >= 2
    ensures var r := Distinct(events, nameOf);
      && (forall k :: 0 <= k < |r| ==> nameOf(r[k]).Some?)
      && (forall a, b :: 0 <= a < b < |r| ==> nameOf(r[a]) != nameOf(r[b]))
  {
    var r, ix := Distinct(events, nameOf), Survivors(events, nameOf, 0);
    SurvivorsCharacterize(events, nameOf, 0);
    forall a, b | 0 <= a < b < |r| ensures nameOf(r[a]) != nameOf(r[b]) {
      assert ix[a] in ix;
      assert IsLast(events, nameOf, ix[a]);
    }
  }

  /** For two or more events, the names of the output are exactly the
      non-null names of the input: null-named events are dropped and every
      non-null name keeps one event. */
  lemma DistinctPreservesNameSet<T>(events: seq<T>, nameOf: T -> Option<Name>)
    requires |events| >= 2
    ensures NamesFrom(Distinct(events, nameOf), nameOf, 0) == NamesFrom(events, nameOf, 0)
  {
    var r, ix := Distinct(events, nameOf), Survivors(events, nameOf, 0);
    SurvivorsCharacterize(events, nameOf, 0);
    forall n | n in NamesFrom(events, nameOf, 0) ensures n in NamesFrom(r, nameOf, 0) {
      var i :| 0 <= i < |events| && nameOf(events[i]) == Some(n);
      var last := LastWithName(events, nameOf, n, i);
      assert last in ix;
      var k :| 0 <= k < |ix| && ix[k] == last;
      assert nameOf(r[k]) == Some(n);
    }
    forall n | n in NamesFrom(r, nameOf, 0) ensures n in NamesFrom(events, nameOf, 0) {
      var k :| 0 <= k < |r| && nameOf(r[k]) == Some(n);
      assert nameOf(events[ix[k]]) == Some(n);
    }
  }

  /** Some position at or after `i` holds the last event named `n`. */
  lemma {:induction false} LastWithName<T>(events: seq<T>, nameOf: T -> Option<Name>, n: Name, i: nat)
      returns (last: nat)
    requires i < |events| && nameOf(events[i]) == Some(n)
    ensures i <= last < |events| && nameOf(events[last]) == Some(n) && IsLast(events, nameOf, last)
    decreases |events| - i
  {
    if IsLast(events, nameOf, i) {
      last := i;
    } else {
      var j :| i < j < |events| && nameOf(events[j]) == nameOf(events[i]);
      last := LastWithName(events, nameOf, n, j);
    }
  }

  /** When every name is non-null and distinct, nothing is dropped. */
  lemma {:induction false} KeepLastOfDistinctIsIdentity<T>(s: seq<T>, nameOf: T -> Option<Name>, lo: nat)
    requires lo <= |s|
    requires forall k :: 0 <= k < |s| ==> nameOf(s[k]).Some?
    requires forall a, b :: 0 <= a < b < |s| ==> nameOf(s[a]) != nameOf(s[b])
    ensures KeepLastFrom(s, nameOf, lo) == s[lo..]
    decreases |s| - lo
  {
    if lo < |s| {
      assert IsLast(s, nameOf, lo);
      KeepLastOfDistinctIsIdentity(s, nameOf, lo + 1);
      assert s[lo..] == [s[lo]] + s[lo + 1..];
    }
  }

  /** Deduplicating twice is the same as deduplicating once. */
  lemma DistinctIsIdempotent<T>(events: seq<T>, nameOf: T -> Option<Name>)
    ensures Distinct(Distinct(events, nameOf), nameOf) == Distinct(events, nameOf)
  {
    if |events| >= 2 {
      var r := Distinct(events, nameOf);
      DistinctNamesAreUnique(events, nameOf);
      if |r| >= 2 {
        KeepLastOfDistinctIsIdentity(r, nameOf, 0);
        assert r[0..] == r;
      }
    }
  }

  /** Renaming the event type with a name-preserving map commutes with the
      reference definition. */
  lemma {:induction false} KeepLastCommutesWithMap<T, U>(
      events: seq<T>, nameT: T -> Option<Name>, f: T -> U, nameU: U -> Option<Name>, lo: nat)
    requires lo <= |events|
    requires forall e :: nameU(f(e)) == nameT(e)
    ensures KeepLastFrom(Map(f, events), nameU, lo) == Map(f, KeepLastFrom(events, nameT, lo))
    decreases |events| - lo
  {
    if lo < |events| {
      var mapped := Map(f, events);
      assert IsLast(mapped, nameU, lo) <==> IsLast(events, nameT, lo) by {
        assert forall j :: 0 <= j < |events| ==> nameU(mapped[j]) == nameT(events[j]);
      }
      KeepLastCommutesWithMap(events, nameT, f, nameU, lo + 1);
      var tail := KeepLastFrom(events, nameT, lo + 1);
      if IsLast(events, nameT, lo) {
        assert Map(f, [events[lo]] + tail) == [f(events[lo])] + Map(f, tail);
      }
    }
  }

  function ToChanging(e: PropertyChangedEventArgs): PropertyChangingEventArgs
  {
    PropertyChangingEventArgs(e.propertyName)
  }

  /** The changing overload behaves exactly like the changed overload: on
      events carrying the same names it keeps the same positions. */
  lemma DistinctOverloadsAgree(events: seq<PropertyChangedEventArgs>)
    ensures DistinctChanging(Map(ToChanging, events)) == Map(ToChanging, DistinctChanged(events))
  {
    if |events| >= 2 {
      KeepLastCommutesWithMap(events, ChangedName, ToChanging, ChangingName, 0);
    }
  }
}
