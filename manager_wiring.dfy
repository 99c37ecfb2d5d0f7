/**
 * `add_managers`, shared by both manager base classes: the managers passed
 * in (a `stdClass` whose properties are walked in order) are copied onto
 * the manager's own `managers` object, except the manager itself.
 */
module ManagerWiring {

  /** One property `$key => $manager` of the `$managers` object. */
  datatype ManagerEntry = ManagerEntry(key: string, manager: object)

  /** The manager map after copying `input` onto `current`, leaving out `self`. */
  function Added(current: map<string, object>, input: seq<ManagerEntry>, self: object): map<string, object>
    decreases input
  {
    if input == [] then current
    else if input[0].manager != self then Added(current[input[0].key := input[0].manager], input[1..], self)
    else Added(current, input[1..], self)
  }

  lemma {:induction false} AddedAppend(current: map<string, object>, input: seq<ManagerEntry>, e: ManagerEntry, self: object)
    ensures Added(current, input + [e], self) ==
      if e.manager != self then Added(current, input, self)[e.key := e.manager] else Added(current, input, self)
    decreases input
  {
    if input != [] {
      assert (input + [e])[1..] == input[1..] + [e];
      if input[0].manager != self {
        AddedAppend(current[input[0].key := input[0].manager], input[1..], e, self);
      } else {
        AddedAppend(current, input[1..], e, self);
      }
    }
  }

  /**
   * `add_managers` never stores the manager itself: a map without it stays
   * without it, keys not passed in keep their manager, and the keys are
   * exactly the old ones and those passed with another manager.
   */
  lemma {:induction false} AddedProperties(current: map<string, object>, input: seq<ManagerEntry>, self: object)
    ensures (forall k :: k in current ==> current[k] != self) ==>
      forall k :: k in Added(current, input, self) ==> Added(current, input, self)[k] != self
    ensures forall k :: k in current && (forall i :: 0 <= i < |input| ==> input[i].key != k) ==>
      k in Added(current, input, self) && Added(current, input, self)[k] == current[k]
    ensures forall k :: k in Added(current, input, self) <==>
      k in current || exists i :: 0 <= i < |input| && input[i].key == k && input[i].manager != self
    decreases input
  {
    if input != [] {
      var next := if input[0].manager != self then current[input[0].key := input[0].manager] else current;
      AddedProperties(next, input[1..], self);
      assert forall i :: 1 <= i < |input| ==> input[i] == input[1..][i - 1];
      forall k | k in Added(current, input, self)
        ensures k in current || exists i :: 0 <= i < |input| && input[i].key == k && input[i].manager != self
      {
        if k !in next {
        } else if k !in current {
          assert input[0].key == k && input[0].manager != self;
        }
      }
      forall k | exists i :: 0 <= i < |input| && input[i].key == k && input[i].manager != self
        ensures k in Added(current, input, self)
      {
        var i :| 0 <= i < |input| && input[i].key == k && input[i].manager != self;
        if i > 0 {
          assert input[1..][i - 1].key == k;
        }
      }
    }
  }

  /** The last entry passed for a key wins, unless it is the manager itself. */
  lemma AddedLastWins(current: map<string, object>, input: seq<ManagerEntry>, e: ManagerEntry, self: object)
    requires e.manager != self
    ensures e.key in Added(current, input + [e], self) && Added(current, input + [e], self)[e.key] == e.manager
  {
    AddedAppend(current, input, e, self);
  }
}
