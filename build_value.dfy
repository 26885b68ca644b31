/**
 * `BuildValue<T>`: a value cell that raises `OnValueChanged` with the new
 * value whenever an assignment actually changes it. Notifications are
 * recorded as the sequence of values passed to the event, oldest first.
 */
module BuildValues {

  /** What a `BuildValue` holds: its value, and the values it has notified. */
  datatype Cell<T> = Cell(value: T, notified: seq<T>)

  /** The `Value` setter on a cell. */
  function Assign<T(==)>(cell: Cell<T>, v: T): (r: Cell<T>)
    ensures r.value == v
    ensures |cell.notified| <= |r.notified| <= |cell.notified| + 1 && r.notified[..|cell.notified|] == cell.notified
    ensures r.notified != cell.notified <==> cell.value != v
  {
    if cell.value == v then cell else Cell(v, cell.notified + [v])
  }

  /** Assigning the same value twice in a row is assigning it once, so it
      notifies at most once. */
  lemma AssignTwice<T>(cell: Cell<T>, v: T)
    ensures Assign(Assign(cell, v), v) == Assign(cell, v)
  {
  }

  /** Every notification carried a change: consecutive notified values
      differ, and the last one is the current value. */
  predicate Consistent<T(==)>(cell: Cell<T>) {
    var n := cell.notified;
    (|n| > 0 ==> n[|n| - 1] == cell.value) && forall i :: 0 < i < |n| ==> n[i - 1] != n[i]
  }

  lemma AssignConsistent<T>(cell: Cell<T>, v: T)
    requires Consistent(cell)
    ensures Consistent(Assign(cell, v))
  {
    var r := Assign(cell, v);
    if cell.value != v {
      var n := r.notified;
      forall i | 0 < i < |n| ensures n[i - 1] != n[i] {
        if i == |n| - 1 && i > 0 {
          assert n[i - 1] == cell.notified[|cell.notified| - 1];
        } else {
          assert n[i - 1] == cell.notified[i - 1] && n[i] == cell.notified[i];
        }
      }
    }
  }

  /** The setter applied to each of `vs` in turn. */
  function AssignAll<T(==)>(cell: Cell<T>, vs: seq<T>): Cell<T>
    decreases |vs|
  {
    if |vs| == 0 then cell else AssignAll(Assign(cell, vs[0]), vs[1..])
  }

  /** The values of `vs` that differ from the one before them (the first
      compared with `current`). */
  function Changes<T(==)>(current: T, vs: seq<T>): seq<T>
    decreases |vs|
  {
    if |vs| == 0 then []
    else if vs[0] == current then Changes(current, vs[1..])
    else [vs[0]] + Changes(vs[0], vs[1..])
  }

  /** A run of assignments notifies exactly at its changes, and leaves the
      last value assigned. */
  lemma {:induction false} AssignAllNotifiesChanges<T>(cell: Cell<T>, vs: seq<T>)
    ensures AssignAll(cell, vs).notified == cell.notified + Changes(cell.value, vs)
    ensures |vs| > 0 ==> AssignAll(cell, vs).value == vs[|vs| - 1]
    ensures |vs| == 0 ==> AssignAll(cell, vs) == cell
    decreases |vs|
  {
    if |vs| > 0 {
      var next := Assign(cell, vs[0]);
      AssignAllNotifiesChanges(next, vs[1..]);
      if |vs| > 1 {
        assert vs[1..][|vs[1..]| - 1] == vs[|vs| - 1];
      }
    }
  }

  class BuildValue<T(==)> {
    /** `_value`, read by the `Value` getter. */
    var value: T
    /** The values passed to `OnValueChanged`, oldest first. */
    var notified: seq<T>

    function State(): Cell<T>
      reads this
    {
      Cell(value, notified)
    }

    /** `new BuildValue<T>()`: holds `default(T)`, given here as `defaultValue`. */
    constructor(defaultValue: T)
      ensures value == defaultValue && notified == []
    {
      value := defaultValue;
      notified := [];
    }

    /** The `Value` setter: an equal value is ignored; a different one is
        stored and then notified once. */
    method SetValue(v: T)
      modifies this
      ensures State() == Assign(old(State()), v)
    {
      if value == v {
        return;
      }
      value := v;
      notified := notified + [value];
    }
  }
}
