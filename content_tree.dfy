/**
 * The site content as the dashboard edits it: a JSON-like tree, and the
 * dotted-path write that handleInputChange performs on a section draft
 * (AdminDashboard.js lines 409-415). A path is split at '.', every segment
 * but the last is followed downwards, and the value is assigned under the
 * last segment of the container reached.
 */
module ContentTree {
  import opened Outcomes
  import opened Text

  datatype Value =
    | Str(s: string)
    | Num(n: int)
    | Arr(items: seq<Value>)
    | Obj(fields: map<string, Value>)

  /** JavaScript truthiness, as `||` tests it. */
  predicate Truthy(v: Value) {
    match v
    case Str(s) => s != []
    case Num(n) => n != 0
    case Arr(_) => true
    case Obj(_) => true
  }

  /**
   * One step of the descent, `current = Array.isArray(current) ?
   * current[parseInt(k)] : current[k]`. None stands for `undefined`, on
   * which the next step or the final assignment throws a TypeError; a
   * string or a number is never descended into.
   */
  function Child(v: Value, k: string): Option<Value> {
    match v
    case Arr(items) =>
      (match ParseIndex(k)
       case Some(n) => if n < |items| then Some(items[n]) else None
       case None => None)
    case Obj(m) => if k in m then Some(m[k]) else None
    case _ => None
  }

  /** The container `v` with the child that `Child(v, k)` found replaced by `c`. */
  function Replace(v: Value, k: string, c: Value): (r: Value)
    requires Child(v, k).Some?
    ensures Child(r, k) == Some(c)
    ensures r.Arr? == v.Arr? && r.Obj? == v.Obj?
  {
    match v
    case Arr(items) => Arr(items[ParseIndex(k).value := c])
    case Obj(m) => Obj(m[k := c])
  }

  /**
   * The final assignment `current[k] = x`: an object gains or overwrites
   * field `k`; an array has its element `k` replaced when `k` is an array
   * index below its length. Anything else is None.
   */
  function Put(v: Value, k: string, x: Value): (r: Option<Value>)
    ensures r.Some? ==> v.Arr? || v.Obj?
    ensures r.Some? ==> r.value.Arr? == v.Arr? && r.value.Obj? == v.Obj?
    ensures r.Some? ==> Child(r.value, k) == Some(x)
  {
    match v
    case Obj(m) => Some(Obj(m[k := x]))
    case Arr(items) =>
      (match CanonicalIndex(k)
       case Some(n) =>
         if n < |items| then
           CanonicalIndexParses(k);
           Some(Arr(items[n := x]))
         else None
       case None => None)
    case _ => None
  }

  /** `v` with `x` written at `keys`, or None where the source throws. */
  function SetPath(v: Value, keys: seq<string>, x: Value): (r: Option<Value>)
    requires |keys| >= 1
    ensures r.Some? ==> v.Arr? || v.Obj?
    ensures r.Some? ==> r.value.Arr? == v.Arr? && r.value.Obj? == v.Obj?
    decreases |keys|
  {
    if |keys| == 1 then Put(v, keys[0], x)
    else
      match Child(v, keys[0])
      case None => None
      case Some(c) =>
        match SetPath(c, keys[1..], x)
        case None => None
        case Some(c') => Some(Replace(v, keys[0], c'))
  }

  /** The node reached by following every segment of `keys` the way the descent does. */
  function Walk(v: Value, keys: seq<string>): Option<Value>
    decreases |keys|
  {
    if keys == [] then Some(v)
    else
      match Child(v, keys[0])
      case None => None
      case Some(c) => Walk(c, keys[1..])
  }

  /** Which member of `v` a segment designates: array positions by `parseInt`, object fields by name. */
  datatype Slot = Index(i: nat) | Field(name: string) | Nowhere

  function SlotOf(v: Value, k: string): Slot {
    match v
    case Arr(_) => (match ParseIndex(k) case Some(n) => Index(n) case None => Nowhere)
    case Obj(_) => Field(k)
    case _ => Nowhere
  }

  /**
   * Path `ps` leads away from path `keys` in `v`: at some depth, after
   * agreeing on every member so far, the two designate different members.
   */
  predicate Apart(v: Value, ps: seq<string>, keys: seq<string>)
    decreases |keys|
  {
    && |ps| > 0 && |keys| > 0
    && (|| SlotOf(v, ps[0]) != SlotOf(v, keys[0])
        || (&& |ps| > 1 && |keys| > 1
            && match Child(v, keys[0])
               case None => true
               case Some(c) => Apart(c, ps[1..], keys[1..])))
  }

  /** After a write, following the written path leads to the written value. */
  lemma {:induction false} SetPathThenWalk(v: Value, keys: seq<string>, x: Value)
    requires |keys| >= 1 && SetPath(v, keys, x).Some?
    ensures Walk(SetPath(v, keys, x).value, keys) == Some(x)
    decreases |keys|
  {
    var r := SetPath(v, keys, x).value;
    if |keys| == 1 {
      assert Child(r, keys[0]) == Some(x);
      assert Walk(x, keys[1..]) == Some(x);
    } else {
      var c := Child(v, keys[0]).value;
      SetPathThenWalk(c, keys[1..], x);
    }
  }

  /** A one-level write, final or on the way back up, changes no other member of the container. */
  lemma SetPathKeepsOtherSlots(v: Value, k: string, x: Value, r: Value, p: string)
    requires (Put(v, k, x) == Some(r)) || (Child(v, k).Some? && r == Replace(v, k, x))
    requires SlotOf(v, p) != SlotOf(v, k)
    ensures Child(r, p) == Child(v, p)
  {
    if Put(v, k, x) == Some(r) && v.Arr? {
      CanonicalIndexParses(k);
    }
  }

  /** Writing at `keys` leaves every path that leads away from `keys` as it was. */
  lemma {:induction false} SetPathFrame(v: Value, keys: seq<string>, x: Value, ps: seq<string>)
    requires |keys| >= 1 && SetPath(v, keys, x).Some?
    requires Apart(v, ps, keys)
    ensures Walk(SetPath(v, keys, x).value, ps) == Walk(v, ps)
    decreases |keys|
  {
    var r := SetPath(v, keys, x).value;
    if SlotOf(v, ps[0]) != SlotOf(v, keys[0]) {
      if |keys| == 1 {
        SetPathKeepsOtherSlots(v, keys[0], x, r, ps[0]);
      } else {
        var c' := SetPath(Child(v, keys[0]).value, keys[1..], x).value;
        SetPathKeepsOtherSlots(v, keys[0], c', r, ps[0]);
      }
    } else {
      var c := Child(v, keys[0]).value;
      var c' := SetPath(c, keys[1..], x).value;
      SetPathFrame(c, keys[1..], x, ps[1..]);
      SameSlotSameChild(v, ps[0], keys[0]);
      assert Child(r, ps[0]) == Some(c');
    }
  }

  /** Writing field `k` of an object: a one-segment walk to `k` finds `x`, one to any other field reads as before. */
  lemma FieldWriteWalk(m: map<string, Value>, k: string, x: Value, other: string)
    requires other != k
    ensures Put(Obj(m), k, x) == Some(Obj(m[k := x]))
    ensures Walk(Obj(m[k := x]), [k]) == Some(x)
    ensures Walk(Obj(m[k := x]), [other]) == Walk(Obj(m), [other])
  {
    assert [k][1..] == [] && [other][1..] == [];
    assert Walk(x, []) == Some(x);
  }

  /** Two segments that designate the same member read the same child. */
  lemma SameSlotSameChild(v: Value, p: string, k: string)
    requires SlotOf(v, p) == SlotOf(v, k)
    ensures Child(v, p) == Child(v, k)
    ensures forall c :: Child(v, k).Some? ==> Child(Replace(v, k, c), p) == Some(c)
  {
  }

  /**
   * The descent and assignment of handleInputChange, step by step: the
   * loop follows every segment but the last, keeping the containers it
   * passes through, the last segment is assigned in the container reached,
   * and each container on the way up takes in its updated child.
   */
  method WritePath(root: Value, keys: seq<string>, x: Value) returns (r: Option<Value>)
    requires |keys| >= 1
    ensures r == SetPath(root, keys, x)
  {
    var spine := [root];
    var current := root;
    var i := 0;
    while i < |keys| - 1
      invariant 0 <= i <= |keys| - 1
      invariant |spine| == i + 1 && spine[0] == root && spine[i] == current
      invariant forall j :: 0 <= j < i ==> Child(spine[j], keys[j]) == Some(spine[j + 1])
      invariant SetPath(root, keys, x).Some? ==> SetPath(current, keys[i..], x).Some?
    {
      var next := Child(current, keys[i]);
      if next.None? {
        return None;
      }
      current := next.value;
      spine := spine + [current];
      i := i + 1;
    }
    var written := Put(current, keys[i], x);
    if written.None? {
      return None;
    }
    var acc := written.value;
    var j := i;
    while j > 0
      invariant 0 <= j <= i
      invariant SetPath(spine[j], keys[j..], x) == Some(acc)
    {
      j := j - 1;
      assert keys[j..][1..] == keys[j + 1..];
      acc := Replace(spine[j], keys[j], acc);
    }
    assert keys[0..] == keys;
    r := Some(acc);
  }
}
