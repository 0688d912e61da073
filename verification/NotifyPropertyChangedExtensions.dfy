/*******************************************************************************
 *  WhenChanged / WhenChangedWithSender: the stream of values at the end of a
 *  property path, re-subscribing level by level as intermediate objects
 *  change.
 *
 *  Objects live in a heap of id -> (member -> value). A stream over a path
 *  of n members has n levels; level i holds at most one PropertyChanged
 *  handler, on the object it currently treats as its parent, and listens
 *  for its member name path[i]. The world evolves by a trace of steps:
 *  writes to the heap, and PropertyChanged raises.
 *
 *  Level i+1 is fed by level i's emissions through
 *  `Where(value is not null).Select(GenerateObservable).Switch()`:
 *  - a non-null value switches level i+1 to the new parent, which at once
 *    emits its current member value (and so on down the path);
 *  - a null value is filtered before the switch, so level i+1 keeps its
 *    old handler. `detach = false` models this as written; `detach = true`
 *    models the evidently intended behaviour in which a null parent
 *    detaches the level and every level below it.
 *******************************************************************************/

module NotifyPropertyChangedExtensions {
  import opened Common

  type ObjId = nat

  /** A member value: null, a reference to a notifying object, or plain data. */
  datatype Value = Null | Ref(id: ObjId) | Prim(n: int)

  type Heap = map<ObjId, map<Name, Value>>

  /** The getter: an absent object or member reads as null. */
  function Read(h: Heap, o: ObjId, m: Name): Value
  {
    if o in h && m in h[o] then h[o][m] else Null
  }

  /** The setter: only member `m` of object `o` changes. */
  function WriteHeap(h: Heap, o: ObjId, m: Name, v: Value): Heap
  {
    h[o := (if o in h then h[o] else map[])[m := v]]
  }

  /** Reading after a write: the written member reads back the new value,
      and every other member of every object reads as before. */
  lemma ReadAfterWrite(h: Heap, o: ObjId, m: Name, v: Value, p: ObjId, n: Name)
    ensures Read(WriteHeap(h, o, m, v), p, n) == if p == o && n == m then v else Read(h, p, n)
  {
  }

  /** What passes `Where(value is not null)` and becomes a level's parent.
      Plain data cannot be a notifying parent in a well-typed program; it is
      treated like null. */
  function AsParent(v: Value): Option<ObjId>
  {
    if v.Ref? then Some(v.id) else None
  }

  datatype Step =
    | Write(obj: ObjId, member: Name, value: Value)
    | Raise(obj: ObjId, sender: Value, propertyName: Option<Name>)

  /** A property setter of a notifying object: assign, then raise
      PropertyChanged with the object itself as sender. */
  function SetSteps(obj: ObjId, member: Name, value: Value): seq<Step>
  {
    [Write(obj, member, value), Raise(obj, Ref(obj), Some(member))]
  }

  /** One element of WhenChangedWithSender; WhenChanged emits `value` only. */
  datatype Emission = Emission(sender: Value, value: Value)

  function Nones(n: nat): (r: seq<Option<ObjId>>)
    ensures |r| == n && forall i :: 0 <= i < n ==> r[i].None?
  {
    seq(n, _ => None)
  }

  datatype Cascaded = Cascaded(levels: seq<Option<ObjId>>, out: seq<Emission>, next: nat)

  /** Level i receives value v from above. A non-null parent replaces the
      level's handler, and the level emits the parent's current member value
      (the initial emission of GenerateObservable), which feeds level i+1;
      the last level's emission leaves the stream with the parent as sender.
      `next` is the first level that was not re-subscribed. */
  function Cascade(detach: bool, h: Heap, path: seq<Name>, levels: seq<Option<ObjId>>, i: nat, v: Value)
    : (c: Cascaded)
    requires |levels| == |path| && i < |path|
    ensures |c.levels| == |path| && i <= c.next <= |path|
    ensures forall j :: 0 <= j < i ==> c.levels[j] == levels[j]
    ensures c.next < |path| ==> c.out == []
    ensures c.out == [] || (
      && c.next == |path| && |c.out| == 1
      && c.out[0].sender.Ref?
      && c.levels[|path| - 1] == Some(c.out[0].sender.id)
      && c.out[0].value == Read(h, c.out[0].sender.id, path[|path| - 1]))
    decreases |path| - i
  {
    match AsParent(v)
    case None =>
      Cascaded(if detach then levels[..i] + Nones(|path| - i) else levels, [], i)
    case Some(p) =>
      var switched := levels[i := Some(p)];
      var w := Read(h, p, path[i]);
      if i == |path| - 1 then Cascaded(switched, [Emission(Ref(p), w)], |path|)
      else Cascade(detach, h, path, switched, i + 1, w)
  }

  /** Level i's handler reacts to this raise: it is attached to the raising
      object and the event names exactly its member. */
  predicate Fires(levels: seq<Option<ObjId>>, path: seq<Name>, i: nat, obj: ObjId, name: Option<Name>)
    requires i < |path| == |levels|
  {
    levels[i] == Some(obj) && name == Some(path[i])
  }

  datatype Delivered = Delivered(levels: seq<Option<ObjId>>, out: seq<Emission>)

  /** A PropertyChanged raise on `obj`, offered to the levels from i down.
      The handlers invoked are those attached when the raise began: a level
      re-subscribed while this raise is being handled is skipped. A firing
      level emits the member's current value (with the raise's sender at the
      last level) and switches the levels below it. */
  function Deliver(detach: bool, h: Heap, path: seq<Name>, levels: seq<Option<ObjId>>, i: nat,
                   obj: ObjId, sender: Value, name: Option<Name>): (d: Delivered)
    requires |levels| == |path| > 0 && i <= |path|
    ensures |d.levels| == |path|
    ensures forall j :: 0 <= j < i ==> d.levels[j] == levels[j]
    ensures |d.out| <= 1
    ensures forall e :: e in d.out ==>
      && d.levels[|path| - 1].Some?
      && e.value == Read(h, d.levels[|path| - 1].value, path[|path| - 1])
      && (e.sender == sender || e.sender == Ref(d.levels[|path| - 1].value))
    decreases |path| - i
  {
    if i == |path| then Delivered(levels, [])
    else if Fires(levels, path, i, obj, name) then
      var w := Read(h, obj, path[i]);
      if i == |path| - 1 then Delivered(levels, [Emission(sender, w)])
      else
        var c := Cascade(detach, h, path, levels, i + 1, w);
        var rest := Deliver(detach, h, path, c.levels, c.next, obj, sender, name);
        Delivered(rest.levels, c.out + rest.out)
    else Deliver(detach, h, path, levels, i + 1, obj, sender, name)
  }

  /** A subscription: the levels' handlers and everything emitted so far. */
  datatype Stream = Stream(levels: seq<Option<ObjId>>, out: seq<Emission>)

  datatype World = World(heap: Heap, stream: Stream)

  /** Subscribing: the root enters level 0 as `Observable.Return(root)`. */
  function Subscribe(detach: bool, h: Heap, path: seq<Name>, root: Value): Stream
    requires |path| > 0
  {
    var c := Cascade(detach, h, path, Nones(|path|), 0, root);
    Stream(c.levels, c.out)
  }

  /** Disposing the subscription detaches every level's handler. */
  function Dispose(s: Stream): Stream
  {
    s.(levels := Nones(|s.levels|))
  }

  function Apply(detach: bool, path: seq<Name>, w: World, step: Step): (r: World)
    requires |w.stream.levels| == |path| > 0
    ensures |r.stream.levels| == |path|
  {
    match step
    case Write(o, m, v) => w.(heap := WriteHeap(w.heap, o, m, v))
    case Raise(o, sender, name) =>
      var d := Deliver(detach, w.heap, path, w.stream.levels, 0, o, sender, name);
      w.(stream := Stream(d.levels, w.stream.out + d.out))
  }

  function Run(detach: bool, path: seq<Name>, w: World, trace: seq<Step>): (r: World)
    requires |w.stream.levels| == |path| > 0
    ensures |r.stream.levels| == |path|
    decreases |trace|
  {
    if trace == [] then w else Run(detach, path, Apply(detach, path, w, trace[0]), trace[1..])
  }

  // ---------------------------------------------------------------------
  // What the path denotes in a heap: each level's parent, and the leaf.
  // ---------------------------------------------------------------------

  /** The object level j should be attached to: the root for level 0, then
      the previous parent's member value; null (None) once a link is null. */
  function Parent(h: Heap, path: seq<Name>, root: Value, j: nat): Option<ObjId>
    requires j < |path|
  {
    if j == 0 then AsParent(root)
    else match Parent(h, path, root, j - 1)
      case None => None
      case Some(p) => AsParent(Read(h, p, path[j - 1]))
  }

  function Chain(h: Heap, path: seq<Name>, root: Value): seq<Option<ObjId>>
  {
    seq(|path|, j requires 0 <= j < |path| => Parent(h, path, root, j))
  }

  /** The value at the end of the path, paired with the object holding it;
      empty when some link is null. */
  function Leaf(h: Heap, path: seq<Name>, root: Value): seq<Emission>
    requires |path| > 0
  {
    match Parent(h, path, root, |path| - 1)
    case None => []
    case Some(p) => [Emission(Ref(p), Read(h, p, path[|path| - 1]))]
  }

  lemma {:induction false} ParentNoneStays(h: Heap, path: seq<Name>, root: Value, i: nat, j: nat)
    requires i <= j < |path| && Parent(h, path, root, i).None?
    ensures Parent(h, path, root, j).None?
    decreases j
  {
    if i < j {
      ParentNoneStays(h, path, root, i, j - 1);
    }
  }

  /** A cascade that starts from level i's true parent (into levels that are
      free below i, or in detaching mode) attaches every level from i on to
      its true parent and emits the current leaf. */
  lemma {:induction false} CascadeFollowsPath(
      detach: bool, h: Heap, path: seq<Name>, root: Value, levels: seq<Option<ObjId>>, i: nat, v: Value)
    requires |levels| == |path| && i < |path|
    requires AsParent(v) == Parent(h, path, root, i)
    requires detach || forall j :: i <= j < |path| ==> levels[j].None?
    ensures var c := Cascade(detach, h, path, levels, i, v);
      && (forall j {:trigger c.levels[j]} :: i <= j < |path| ==> c.levels[j] == Parent(h, path, root, j))
      && c.out == Leaf(h, path, root)
      && (c.next < |path| ==> Parent(h, path, root, c.next).None?)
    decreases |path| - i
  {
    var c := Cascade(detach, h, path, levels, i, v);
    match AsParent(v)
    case None =>
      forall j | i <= j < |path| ensures c.levels[j] == Parent(h, path, root, j) {
        ParentNoneStays(h, path, root, i, j);
      }
      ParentNoneStays(h, path, root, i, |path| - 1);
    case Some(p) =>
      if i < |path| - 1 {
        CascadeFollowsPath(detach, h, path, root, levels[i := Some(p)], i + 1, Read(h, p, path[i]));
      }
  }

  /** Subscribing attaches every level to its true parent and emits the
      current value at the end of the path, once, with its holder as sender;
      a null link emits nothing. Both modes agree here. */
  lemma SubscribeEmitsCurrentValue(detach: bool, h: Heap, path: seq<Name>, root: Value)
    requires |path| > 0
    ensures Subscribe(detach, h, path, root).levels == Chain(h, path, root)
    ensures Subscribe(detach, h, path, root).out == Leaf(h, path, root)
  {
    CascadeFollowsPath(detach, h, path, root, Nones(|path|), 0, root);
  }

  /** A raise that no attached level listens for changes nothing. */
  lemma {:induction false} DeliverSilent(detach: bool, h: Heap, path: seq<Name>, levels: seq<Option<ObjId>>,
                                         i: nat, obj: ObjId, sender: Value, name: Option<Name>)
    requires |levels| == |path| > 0 && i <= |path|
    requires forall j :: i <= j < |path| ==> !Fires(levels, path, j, obj, name)
    ensures Deliver(detach, h, path, levels, i, obj, sender, name) == Delivered(levels, [])
    decreases |path| - i
  {
    if i < |path| {
      DeliverSilent(detach, h, path, levels, i + 1, obj, sender, name);
    }
  }

  /** Only exact name matches on the attached parents matter: a raise on an
      object no level is attached to (such as a parent that has been
      switched away from), or with a null name, or with a name no level on
      that object listens for, emits nothing and leaves the stream as it
      was. */
  lemma RaiseWithoutListenerIsSilent(detach: bool, path: seq<Name>, w: World, obj: ObjId, sender: Value,
                                     name: Option<Name>)
    requires |w.stream.levels| == |path| > 0
    requires name.None? || Some(obj) !in w.stream.levels
             || forall j :: 0 <= j < |path| && w.stream.levels[j] == Some(obj) ==> path[j] != name.value
    ensures Apply(detach, path, w, Raise(obj, sender, name)) == w
  {
    forall j | 0 <= j < |path| ensures !Fires(w.stream.levels, path, j, obj, name) {
      if w.stream.levels[j] == Some(obj) {
        assert Some(obj) in w.stream.levels;
      }
    }
    DeliverSilent(detach, w.heap, path, w.stream.levels, 0, obj, sender, name);
  }

  /** `h'` differs from `h` at most in member `m` of `obj`. */
  ghost predicate AgreesExcept(h: Heap, h': Heap, obj: ObjId, m: Name)
  {
    forall p, n :: !(p == obj && n == m) ==> Read(h', p, n) == Read(h, p, n)
  }

  lemma WriteAgreesExcept(h: Heap, obj: ObjId, m: Name, x: Value)
    ensures AgreesExcept(h, WriteHeap(h, obj, m, x), obj, m)
  {
    forall p, n | !(p == obj && n == m) ensures Read(WriteHeap(h, obj, m, x), p, n) == Read(h, p, n) {
      ReadAfterWrite(h, obj, m, x, p, n);
    }
  }

  /** The levels are attached to their true parents in heap `h`. */
  ghost predicate Attached(levels: seq<Option<ObjId>>, h: Heap, path: seq<Name>, root: Value)
  {
    |levels| == |path| && forall j {:trigger levels[j]} :: 0 <= j < |path| ==> levels[j] == Parent(h, path, root, j)
  }

  /** No level above `J` listens to member `m` of `obj`. */
  ghost predicate Untouched(levels: seq<Option<ObjId>>, path: seq<Name>, obj: ObjId, m: Name, J: nat)
    requires J <= |path| == |levels|
  {
    forall j :: 0 <= j < J ==> !Fires(levels, path, j, obj, Some(m))
  }

  /** A write does not move a parent that is reached without reading the
      written member. */
  lemma {:induction false} ParentFrame(h: Heap, h': Heap, path: seq<Name>, root: Value, levels: seq<Option<ObjId>>,
                                       obj: ObjId, m: Name, j: nat)
    requires j < |path| && Attached(levels, h, path, root) && AgreesExcept(h, h', obj, m)
    requires Untouched(levels, path, obj, m, j)
    ensures Parent(h', path, root, j) == Parent(h, path, root, j)
    decreases j
  {
    if j > 0 {
      ParentFrame(h, h', path, root, levels, obj, m, j - 1);
      var above := levels[j - 1];
      assert above == Parent(h, path, root, j - 1);
      assert !Fires(levels, path, j - 1, obj, Some(m));
      if above.Some? {
        assert Read(h', above.value, path[j - 1]) == Read(h, above.value, path[j - 1]);
      }
    }
  }

  /** The levels down to `J` stay attached across such a write. */
  lemma FrameUpTo(h: Heap, h': Heap, path: seq<Name>, root: Value, levels: seq<Option<ObjId>>, obj: ObjId, m: Name, J: nat)
    requires J < |path| && Attached(levels, h, path, root) && AgreesExcept(h, h', obj, m)
    requires Untouched(levels, path, obj, m, J)
    ensures forall j :: 0 <= j <= J ==> levels[j] == Parent(h', path, root, j)
  {
    forall j | 0 <= j <= J ensures levels[j] == Parent(h', path, root, j) {
      ParentFrame(h, h', path, root, levels, obj, m, j);
    }
  }

  /** A write that no level listens to leaves the path and its leaf as they were. */
  lemma LeafFrame(h: Heap, h': Heap, path: seq<Name>, root: Value, levels: seq<Option<ObjId>>, obj: ObjId, m: Name)
    requires |path| > 0 && Attached(levels, h, path, root) && AgreesExcept(h, h', obj, m)
    requires Untouched(levels, path, obj, m, |path|)
    ensures Attached(levels, h', path, root)
    ensures Leaf(h', path, root) == Leaf(h, path, root)
  {
    var k := |path|;
    FrameUpTo(h, h', path, root, levels, obj, m, k - 1);
    var p := levels[k - 1];
    assert !Fires(levels, path, k - 1, obj, Some(m));
    if p.Some? {
      assert Read(h', p.value, path[k - 1]) == Read(h, p.value, path[k - 1]);
    }
  }

  /** The raise's outcome in the detaching stream after the setter wrote `h'`. */
  ghost predicate TracksWrite(d: Delivered, h: Heap, h': Heap, path: seq<Name>, root: Value)
    requires |path| > 0
  {
    && Attached(d.levels, h', path, root)
    && (d.out == [] || d.out == Leaf(h', path, root))
    && (Leaf(h', path, root) != Leaf(h, path, root) ==> d.out == Leaf(h', path, root))
  }

  /** On the last level, a firing raise emits the leaf and moves no level. */
  lemma DeliverLast(h: Heap, path: seq<Name>, root: Value, levels: seq<Option<ObjId>>, i: nat, obj: ObjId, m: Name)
    requires |levels| == |path| > 0 && i == |path| - 1
    requires levels[i] == Parent(h, path, root, i)
    requires Fires(levels, path, i, obj, Some(m))
    ensures Deliver(true, h, path, levels, i, obj, Ref(obj), Some(m)) == Delivered(levels, Leaf(h, path, root))
  {
  }

  /** A firing level above the last one, whose levels down to it are
      attached in `h`, re-attaches every deeper level and emits the leaf. */
  lemma CascadeReattaches(h: Heap, path: seq<Name>, root: Value, levels: seq<Option<ObjId>>, i: nat,
                          obj: ObjId, name: Option<Name>)
    requires |levels| == |path| > 0 && i < |path| - 1
    requires forall j :: 0 <= j <= i ==> levels[j] == Parent(h, path, root, j)
    requires Fires(levels, path, i, obj, name)
    ensures var d := Deliver(true, h, path, levels, i, obj, Ref(obj), name);
      Attached(d.levels, h, path, root) && d.out == Leaf(h, path, root)
  {
    var k := |path|;
    var w := Read(h, obj, path[i]);
    assert AsParent(w) == Parent(h, path, root, i + 1);
    CascadeFollowsPath(true, h, path, root, levels, i + 1, w);
    var c := Cascade(true, h, path, levels, i + 1, w);
    if c.next < k {
      forall j | c.next <= j < k ensures !Fires(c.levels, path, j, obj, name) {
        ParentNoneStays(h, path, root, c.next, j);
      }
    }
    DeliverSilent(true, h, path, c.levels, c.next, obj, Ref(obj), name);
    assert Deliver(true, h, path, levels, i, obj, Ref(obj), name) == Delivered(c.levels, c.out);
  }

  lemma DeliverSkips(detach: bool, h: Heap, path: seq<Name>, levels: seq<Option<ObjId>>, i: nat,
                     obj: ObjId, sender: Value, name: Option<Name>)
    requires |levels| == |path| > 0 && i < |path|
    requires !Fires(levels, path, i, obj, name)
    ensures Deliver(detach, h, path, levels, i, obj, sender, name) == Deliver(detach, h, path, levels, i + 1, obj, sender, name)
  {
  }

  /** A raise that passes every level above the last and fires the last
      one is handled by that level's own handler: its one emission carries
      the raise's sender, whoever that is, and no level moves. */
  lemma {:induction false} LastLevelKeepsRaiseSender(
      detach: bool, h: Heap, path: seq<Name>, levels: seq<Option<ObjId>>, i: nat,
      obj: ObjId, sender: Value, name: Option<Name>)
    requires |levels| == |path| > 0 && i < |path|
    requires forall j :: i <= j < |path| - 1 ==> !Fires(levels, path, j, obj, name)
    requires Fires(levels, path, |path| - 1, obj, name)
    ensures Deliver(detach, h, path, levels, i, obj, sender, name)
         == Delivered(levels, [Emission(sender, Read(h, obj, path[|path| - 1]))])
    decreases |path| - i
  {
    if i < |path| - 1 {
      DeliverSkips(detach, h, path, levels, i, obj, sender, name);
      LastLevelKeepsRaiseSender(detach, h, path, levels, i + 1, obj, sender, name);
    }
  }

  /** A raise of a member other than the leaf member can only fire upper
      levels; what reaches the output then comes from the re-subscribed last
      level, whose emission carries the object it now listens to as sender,
      whatever the raise's sender was. */
  lemma {:induction false} UpperLevelEmitsHolder(
      detach: bool, h: Heap, path: seq<Name>, levels: seq<Option<ObjId>>, i: nat,
      obj: ObjId, sender: Value, name: Option<Name>)
    requires |levels| == |path| > 0 && i <= |path|
    requires name != Some(path[|path| - 1])
    ensures var d := Deliver(detach, h, path, levels, i, obj, sender, name);
      forall e :: e in d.out ==> d.levels[|path| - 1].Some? && e.sender == Ref(d.levels[|path| - 1].value)
    decreases |path| - i
  {
    if i < |path| {
      if Fires(levels, path, i, obj, name) {
        var w := Read(h, obj, path[i]);
        var c := Cascade(detach, h, path, levels, i + 1, w);
        UpperLevelEmitsHolder(detach, h, path, c.levels, c.next, obj, sender, name);
        if c.next == |path| {
          assert Deliver(detach, h, path, c.levels, c.next, obj, sender, name) == Delivered(c.levels, []);
        }
      } else {
        UpperLevelEmitsHolder(detach, h, path, levels, i + 1, obj, sender, name);
      }
    }
  }

  /** The detaching stream, attached along the path, handles a setter's
      raise by re-attaching along the new path and emitting, at most once,
      the new leaf; if the leaf changed, it is emitted. `h'` is the heap
      after the setter wrote member `m` of `obj`. */
  lemma {:induction false} DeliverTracksWrite(
      h: Heap, h': Heap, path: seq<Name>, root: Value, levels: seq<Option<ObjId>>, i: nat, obj: ObjId, m: Name)
    requires |levels| == |path| > 0 && i <= |path|
    requires Attached(levels, h, path, root) && AgreesExcept(h, h', obj, m)
    requires Untouched(levels, path, obj, m, i)
    ensures TracksWrite(Deliver(true, h', path, levels, i, obj, Ref(obj), Some(m)), h, h', path, root)
    decreases |path| - i
  {
    if i == |path| {
      LeafFrame(h, h', path, root, levels, obj, m);
    } else if Fires(levels, path, i, obj, Some(m)) {
      FrameUpTo(h, h', path, root, levels, obj, m, i);
      if i == |path| - 1 {
        DeliverLast(h', path, root, levels, i, obj, m);
      } else {
        CascadeReattaches(h', path, root, levels, i, obj, Some(m));
      }
    } else {
      DeliverSkips(true, h', path, levels, i, obj, Ref(obj), Some(m));
      DeliverTracksWrite(h, h', path, root, levels, i + 1, obj, m);
    }
  }

  lemma ChainPointwise(levels: seq<Option<ObjId>>, h: Heap, path: seq<Name>, root: Value)
    requires Attached(levels, h, path, root)
    ensures levels == Chain(h, path, root)
  {
  }

  lemma RunSetSteps(detach: bool, path: seq<Name>, w: World, obj: ObjId, m: Name, x: Value)
    requires |w.stream.levels| == |path| > 0
    ensures Run(detach, path, w, SetSteps(obj, m, x))
         == Apply(detach, path, Apply(detach, path, w, Write(obj, m, x)), Raise(obj, Ref(obj), Some(m)))
  {
    var steps := SetSteps(obj, m, x);
    var w1 := Apply(detach, path, w, steps[0]);
    assert Run(detach, path, w, steps) == Run(detach, path, w1, steps[1..]);
    var w2 := Apply(detach, path, w1, steps[1..][0]);
    assert Run(detach, path, w1, steps[1..]) == Run(detach, path, w2, steps[1..][1..]);
    assert steps[1..][1..] == [];
  }

  /** One setter call against the detaching stream: the handlers follow the
      new path, anything emitted is the new leaf, and a changed leaf is
      always emitted. */
  lemma {:induction false} DetachingSetTracksPath(path: seq<Name>, root: Value, w: World, obj: ObjId, m: Name, x: Value)
    requires |w.stream.levels| == |path| > 0
    requires w.stream.levels == Chain(w.heap, path, root)
    ensures var w' := Run(true, path, w, SetSteps(obj, m, x));
      && w'.heap == WriteHeap(w.heap, obj, m, x)
      && w'.stream.levels == Chain(w'.heap, path, root)
      && (w'.stream.out == w.stream.out || w'.stream.out == w.stream.out + Leaf(w'.heap, path, root))
      && (Leaf(w'.heap, path, root) != Leaf(w.heap, path, root) ==>
            w'.stream.out == w.stream.out + Leaf(w'.heap, path, root))
  {
    var h' := WriteHeap(w.heap, obj, m, x);
    WriteAgreesExcept(w.heap, obj, m, x);
    DeliverTracksWrite(w.heap, h', path, root, w.stream.levels, 0, obj, m);
    var d := Deliver(true, h', path, w.stream.levels, 0, obj, Ref(obj), Some(m));
    ChainPointwise(d.levels, h', path, root);
    RunSetSteps(true, path, w, obj, m, x);
    assert Run(true, path, w, SetSteps(obj, m, x)) == World(h', Stream(d.levels, w.stream.out + d.out));
  }

  datatype Assign = Assign(obj: ObjId, member: Name, value: Value)

  function SetTrace(sets: seq<Assign>): seq<Step>
    decreases |sets|
  {
    if sets == [] then [] else SetSteps(sets[0].obj, sets[0].member, sets[0].value) + SetTrace(sets[1..])
  }

  lemma {:induction false} RunAppend(detach: bool, path: seq<Name>, w: World, t1: seq<Step>, t2: seq<Step>)
    requires |w.stream.levels| == |path| > 0
    ensures Run(detach, path, w, t1 + t2) == Run(detach, path, Run(detach, path, w, t1), t2)
    decreases |t1|
  {
    if t1 != [] {
      assert (t1 + t2)[0] == t1[0];
      assert (t1 + t2)[1..] == t1[1..] + t2;
      RunAppend(detach, path, Apply(detach, path, w, t1[0]), t1[1..], t2);
    } else {
      assert t1 + t2 == t2;
    }
  }

  /** The stream is attached along the path and its latest emission is the
      current leaf whenever the path resolves. */
  ghost predicate Current(path: seq<Name>, root: Value, w: World)
    requires |path| > 0
  {
    && w.stream.levels == Chain(w.heap, path, root)
    && (Leaf(w.heap, path, root) != [] ==>
          |w.stream.out| > 0 && w.stream.out[|w.stream.out| - 1] == Leaf(w.heap, path, root)[0])
  }

  lemma {:induction false} DetachingSetsKeepCurrent(path: seq<Name>, root: Value, w: World, sets: seq<Assign>)
    requires |w.stream.levels| == |path| > 0
    requires Current(path, root, w)
    ensures Current(path, root, Run(true, path, w, SetTrace(sets)))
    decreases |sets|
  {
    if sets != [] {
      var a := sets[0];
      var steps := SetSteps(a.obj, a.member, a.value);
      DetachingSetTracksPath(path, root, w, a.obj, a.member, a.value);
      RunAppend(true, path, w, steps, SetTrace(sets[1..]));
      DetachingSetsKeepCurrent(path, root, Run(true, path, w, steps), sets[1..]);
    }
  }

  /** A detaching subscription followed by any sequence of setter calls:
      the handlers always follow the path, and whenever the path resolves
      the subscriber's latest value is the current leaf. */
  lemma DetachingStreamStaysCurrent(h: Heap, path: seq<Name>, root: Value, sets: seq<Assign>)
    requires |path| > 0
    ensures var w := Run(true, path, World(h, Subscribe(true, h, path, root)), SetTrace(sets));
      && w.stream.levels == Chain(w.heap, path, root)
      && (Leaf(w.heap, path, root) != [] ==>
            |w.stream.out| > 0 && w.stream.out[|w.stream.out| - 1] == Leaf(w.heap, path, root)[0])
  {
    SubscribeEmitsCurrentValue(true, h, path, root);
    DetachingSetsKeepCurrent(path, root, World(h, Subscribe(true, h, path, root)), sets);
  }

  /** After disposal, no step of any trace emits anything. */
  lemma {:induction false} NothingAfterDispose(detach: bool, path: seq<Name>, w: World, trace: seq<Step>)
    requires |w.stream.levels| == |path| > 0
    ensures var d := w.(stream := Dispose(w.stream));
      Run(detach, path, d, trace).stream.out == w.stream.out
    decreases |trace|
  {
    var d := w.(stream := Dispose(w.stream));
    if trace != [] {
      var d1 := Apply(detach, path, d, trace[0]);
      if trace[0].Raise? {
        RaiseWithoutListenerIsSilent(detach, path, d, trace[0].obj, trace[0].sender, trace[0].propertyName);
      }
      assert d1 == d1.(stream := Dispose(d1.stream));
      NothingAfterDispose(detach, path, d1, trace[1..]);
    }
  }

  /** A null object to monitor is not rejected: the stream simply never
      emits, whatever happens afterwards. */
  lemma NullRootNeverEmits(detach: bool, h: Heap, path: seq<Name>, trace: seq<Step>)
    requires |path| > 0
    ensures Subscribe(detach, h, path, Null).out == []
    ensures Run(detach, path, World(h, Subscribe(detach, h, path, Null)), trace).stream.out == []
  {
    var s := Subscribe(detach, h, path, Null);
    var w := World(h, s);
    assert s.levels == Nones(|path|) by {
      if !detach {
        assert Cascade(detach, h, path, Nones(|path|), 0, Null).levels == Nones(|path|);
      } else {
        assert Nones(|path|)[..0] + Nones(|path|) == Nones(|path|);
      }
    }
    assert w.(stream := Dispose(w.stream)) == w;
    NothingAfterDispose(detach, path, w, trace);
  }

  /** The scenario of the stale-parent discrepancy: a path root.A.B with
      root = obj 0, obj0.A = obj 1 and obj1.B = 1; then root.A is set to
      null and, afterwards, obj1.B to 2. */
  const StalePath: seq<Name> := ["A", "B"]
  const StaleHeap: Heap := map[0 := map["A" := Ref(1)], 1 := map["B" := Prim(1)]]
  const StaleTrace: seq<Step> := SetSteps(0, "A", Null) + SetSteps(1, "B", Prim(2))

  lemma StaleSubscription(detach: bool)
    ensures Subscribe(detach, StaleHeap, StalePath, Ref(0)) == Stream([Some(0), Some(1)], [Emission(Ref(1), Prim(1))])
  {
    assert Read(StaleHeap, 0, "A") == Ref(1) && Read(StaleHeap, 1, "B") == Prim(1);
  }

  /** root.A := null: the as-written stream keeps level 1 on obj 1; the
      detaching stream detaches it. Neither emits. */
  lemma StaleFirstSetter(detach: bool)
    ensures var levels := [Some(0), Some(1)];
            var w := World(StaleHeap, Stream(levels, [Emission(Ref(1), Prim(1))]));
            var w' := Run(detach, StalePath, w, SetSteps(0, "A", Null));
      && w'.heap == WriteHeap(StaleHeap, 0, "A", Null)
      && w'.stream.out == w.stream.out
      && w'.stream.levels == (if detach then [Some(0), None] else levels)
  {
    var levels := [Some(0), Some(1)];
    var h1 := WriteHeap(StaleHeap, 0, "A", Null);
    var w := World(StaleHeap, Stream(levels, [Emission(Ref(1), Prim(1))]));
    assert Read(h1, 0, "A") == Null;
    var after := if detach then [Some(0), None] else levels;
    assert Cascade(detach, h1, StalePath, levels, 1, Null).levels == after by {
      if detach {
        assert levels[..1] + Nones(1) == [Some(0), None];
      }
    }
    assert Deliver(detach, h1, StalePath, levels, 0, 0, Ref(0), Some("A")) == Delivered(after, []);
    RunSetSteps(detach, StalePath, w, 0, "A", Null);
  }

  /** obj1.B := 2: a level still on obj 1 fires; a detached one does not. */
  lemma StaleSecondSetter(detach: bool)
    ensures var h1 := WriteHeap(StaleHeap, 0, "A", Null);
            var levels := if detach then [Some(0), None] else [Some(0), Some(1)];
            var w := World(h1, Stream(levels, [Emission(Ref(1), Prim(1))]));
            var w' := Run(detach, StalePath, w, SetSteps(1, "B", Prim(2)));
      && w'.heap == WriteHeap(h1, 1, "B", Prim(2))
      && w'.stream.out == w.stream.out + (if detach then [] else [Emission(Ref(1), Prim(2))])
  {
    var h1 := WriteHeap(StaleHeap, 0, "A", Null);
    var h2 := WriteHeap(h1, 1, "B", Prim(2));
    var levels := if detach then [Some(0), None] else [Some(0), Some(1)];
    var w := World(h1, Stream(levels, [Emission(Ref(1), Prim(1))]));
    assert Read(h2, 1, "B") == Prim(2);
    if detach {
      assert Deliver(detach, h2, StalePath, levels, 0, 1, Ref(1), Some("B")) == Delivered(levels, []);
    } else {
      assert Deliver(detach, h2, StalePath, levels, 1, 1, Ref(1), Some("B"))
          == Delivered(levels, [Emission(Ref(1), Prim(2))]);
      assert Deliver(detach, h2, StalePath, levels, 0, 1, Ref(1), Some("B"))
          == Delivered(levels, [Emission(Ref(1), Prim(2))]);
    }
    RunSetSteps(detach, StalePath, w, 1, "B", Prim(2));
  }

  /** As written, the stream keeps listening to obj 1 after root.A became
      null, and emits its new B although root.A.B no longer resolves. */
  lemma StaleParentStillEmits()
    ensures var w := Run(false, StalePath, World(StaleHeap, Subscribe(false, StaleHeap, StalePath, Ref(0))), StaleTrace);
      && w.stream.out == [Emission(Ref(1), Prim(1)), Emission(Ref(1), Prim(2))]
      && Leaf(w.heap, StalePath, Ref(0)) == []
  {
    var w0 := World(StaleHeap, Subscribe(false, StaleHeap, StalePath, Ref(0)));
    StaleSubscription(false);
    StaleFirstSetter(false);
    StaleSecondSetter(false);
    RunAppend(false, StalePath, w0, SetSteps(0, "A", Null), SetSteps(1, "B", Prim(2)));
    var w := Run(false, StalePath, w0, StaleTrace);
    assert Read(w.heap, 0, "A") == Null;
  }

  /** Detaching on null, the same scenario emits nothing after the initial
      value: root.A := null detaches level 1, and obj1.B then fires nothing. */
  lemma NullParentDetaches()
    ensures var w := Run(true, StalePath, World(StaleHeap, Subscribe(true, StaleHeap, StalePath, Ref(0))), StaleTrace);
      w.stream.out == [Emission(Ref(1), Prim(1))] && w.stream.levels == [Some(0), None]
  {
    var w0 := World(StaleHeap, Subscribe(true, StaleHeap, StalePath, Ref(0)));
    StaleSubscription(true);
    StaleFirstSetter(true);
    StaleSecondSetter(true);
    RunAppend(true, StalePath, w0, SetSteps(0, "A", Null), SetSteps(1, "B", Prim(2)));
  }

  // ---------------------------------------------------------------------
  // The two public operations.
  // ---------------------------------------------------------------------

  /** The argument checks of WhenChanged/WhenChangedWithSender: a null
      expression, then a chain with no links. */
  function ResolveChain(propertyExpression: Option<PropertyExpression>): Result<seq<Name>>
  {
    match propertyExpression
    case None => Failure(ArgumentNull("propertyExpression"))
    case Some(e) =>
      if |e.chain| == 0 then
        Failure(Argument("There are no properties in the expressions", Some("propertyExpression")))
      else Success(e.chain)
  }

  /** WhenChangedWithSender: every (sender, value) the subscriber receives
      while `trace` unfolds after subscription. A null link detaches the
      levels below it (the corrected behaviour; see StaleParentStillEmits
      for the code as written). */
  function WhenChangedWithSender(h: Heap, objectToMonitor: Value, propertyExpression: Option<PropertyExpression>,
                                 trace: seq<Step>): (r: Result<seq<Emission>>)
    ensures propertyExpression.None? ==> r == Failure(ArgumentNull("propertyExpression"))
    ensures propertyExpression.Some? && propertyExpression.value.chain == [] ==>
      r == Failure(Argument("There are no properties in the expressions", Some("propertyExpression")))
    ensures r.Success? <==> propertyExpression.Some? && propertyExpression.value.chain != []
    ensures r.Success? && trace == [] ==> r.value == Leaf(h, propertyExpression.value.chain, objectToMonitor)
  {
    match ResolveChain(propertyExpression)
    case Failure(e) => Failure(e)
    case Success(path) =>
      SubscribeEmitsCurrentValue(true, h, path, objectToMonitor);
      Success(Run(true, path, World(h, Subscribe(true, h, path, objectToMonitor)), trace).stream.out)
  }

  function Values(es: seq<Emission>): seq<Value>
  {
    Map((e: Emission) => e.value, es)
  }

  /** WhenChanged: the same stream without senders. */
  function WhenChanged(h: Heap, objectToMonitor: Value, propertyExpression: Option<PropertyExpression>,
                       trace: seq<Step>): (r: Result<seq<Value>>)
    ensures propertyExpression.None? ==> r == Failure(ArgumentNull("propertyExpression"))
    ensures propertyExpression.Some? && propertyExpression.value.chain == [] ==>
      r == Failure(Argument("There are no properties in the expressions", Some("propertyExpression")))
    ensures r.Success? <==> propertyExpression.Some? && propertyExpression.value.chain != []
    ensures var ws := WhenChangedWithSender(h, objectToMonitor, propertyExpression, trace);
      r.Success? ==> |r.value| == |ws.value| && forall i :: 0 <= i < |r.value| ==> r.value[i] == ws.value[i].value
    ensures r.Success? && trace == [] ==> r.value == Values(Leaf(h, propertyExpression.value.chain, objectToMonitor))
  {
    match WhenChangedWithSender(h, objectToMonitor, propertyExpression, trace)
    case Failure(e) => Failure(e)
    case Success(es) => Success(Values(es))
  }

  /** The heap after a sequence of setter calls. */
  function HeapAfter(h: Heap, sets: seq<Assign>): Heap
    decreases |sets|
  {
    if sets == [] then h else HeapAfter(WriteHeap(h, sets[0].obj, sets[0].member, sets[0].value), sets[1..])
  }

  lemma {:induction false} RunHeap(detach: bool, path: seq<Name>, w: World, sets: seq<Assign>)
    requires |w.stream.levels| == |path| > 0
    ensures Run(detach, path, w, SetTrace(sets)).heap == HeapAfter(w.heap, sets)
    decreases |sets|
  {
    if sets != [] {
      var a := sets[0];
      var steps := SetSteps(a.obj, a.member, a.value);
      RunAppend(detach, path, w, steps, SetTrace(sets[1..]));
      RunSetSteps(detach, path, w, a.obj, a.member, a.value);
      RunHeap(detach, path, Run(detach, path, w, steps), sets[1..]);
    }
  }

  /** After any sequence of setter calls, whenever the path resolves, the
      latest value WhenChanged has delivered is the current value at its
      end. */
  lemma WhenChangedReportsCurrentValue(h: Heap, objectToMonitor: Value, propertyExpression: Option<PropertyExpression>,
                                       sets: seq<Assign>)
    requires propertyExpression.Some? && propertyExpression.value.chain != []
    ensures var r := WhenChanged(h, objectToMonitor, propertyExpression, SetTrace(sets));
            var leaf := Leaf(HeapAfter(h, sets), propertyExpression.value.chain, objectToMonitor);
      && r.Success?
      && (leaf != [] ==> |r.value| > 0 && r.value[|r.value| - 1] == leaf[0].value)
  {
    var path := propertyExpression.value.chain;
    var w0 := World(h, Subscribe(true, h, path, objectToMonitor));
    DetachingStreamStaysCurrent(h, path, objectToMonitor, sets);
    RunHeap(true, path, w0, sets);
  }
}
