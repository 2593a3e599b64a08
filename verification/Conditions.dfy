/** The status condition list and the three operations on it. */
module Conditions {
  import opened Options

  datatype ConditionType =
    | RevisionPrepared
    | CanaryProvisioning
    | Validating
    | RolloutProgressing
    | Promoting
    | RolledBack
    | CircuitBreakerTripped
    | Foreign(name: string)

  datatype Truth = True | False | Unknown

  datatype Condition = Condition(kind: ConditionType, status: Truth)

  /** FindStatusCondition: the status of the first condition of that type. */
  function Find(cs: seq<Condition>, t: ConditionType): Option<Truth> {
    if |cs| == 0 then None else if cs[0].kind == t then Some(cs[0].status) else Find(cs[1..], t)
  }

  predicate Has(cs: seq<Condition>, t: ConditionType) {
    Find(cs, t).Some?
  }

  predicate IsTrue(cs: seq<Condition>, t: ConditionType) {
    Find(cs, t) == Some(True)
  }

  /** RemoveStatusCondition drops every condition of the type and leaves the others. */
  function Remove(cs: seq<Condition>, t: ConditionType): (r: seq<Condition>)
    ensures forall u :: Find(r, u) == if u == t then None else Find(cs, u)
  {
    if |cs| == 0 then []
    else if cs[0].kind == t then Remove(cs[1..], t)
    else
      var rest := Remove(cs[1..], t);
      assert ([cs[0]] + rest)[1..] == rest;
      [cs[0]] + rest
  }

  /** SetStatusCondition overwrites the first condition of the type, or appends one. */
  function Set(cs: seq<Condition>, t: ConditionType, status: Truth): (r: seq<Condition>)
    ensures forall u :: Find(r, u) == if u == t then Some(status) else Find(cs, u)
  {
    if |cs| == 0 then [Condition(t, status)]
    else if cs[0].kind == t then
      var r := [Condition(t, status)] + cs[1..];
      assert r[1..] == cs[1..];
      r
    else
      var rest := Set(cs[1..], t, status);
      assert ([cs[0]] + rest)[1..] == rest;
      [cs[0]] + rest
  }

  /** The first condition in the list that is true. */
  function FirstTrue(cs: seq<Condition>): Option<ConditionType> {
    if |cs| == 0 then None else if cs[0].status == True then Some(cs[0].kind) else FirstTrue(cs[1..])
  }

  method FindFirstTrue(cs: seq<Condition>) returns (t: Option<ConditionType>)
    ensures t == FirstTrue(cs)
    ensures t.None? <==> forall i :: 0 <= i < |cs| ==> cs[i].status != True
  {
    for i := 0 to |cs|
      invariant FirstTrue(cs) == FirstTrue(cs[i..])
      invariant forall k :: 0 <= k < i ==> cs[k].status != True
    {
      if cs[i].status == True {
        return Some(cs[i].kind);
      }
      assert cs[i..][1..] == cs[i + 1..];
    }
    return None;
  }
}
