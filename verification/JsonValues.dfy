// JSON instances and Python's equality on them, as the action validator compares
// instance values with `const` and `enum` members.
module JsonValues {

  datatype Option<+T> = None | Some(value: T)

  // `integral` separates a Python int from a Python float; booleans are a separate case
  // although Python counts them as numbers when it compares.
  datatype Json =
    | JNull
    | JBool(b: bool)
    | JNum(n: real, integral: bool)
    | JStr(s: string)
    | JArr(items: seq<Json>)
    | JObj(members: map<string, Json>)
  {
    predicate Container() {
      JArr? || JObj?
    }

    predicate Scalar() {
      !Container()
    }

    // The number Python compares by: True and False are 1 and 0.
    function Numeric(): (r: Option<real>) {
      match this
      case JBool(b) => Some(if b then 1.0 else 0.0)
      case JNum(n, _) => Some(n)
      case _ => None
    }
  }

  // `value == expected` in Python.
  predicate PyEq(value: Json, expected: Json)
  {
    if value.Numeric().Some? && expected.Numeric().Some? then value.Numeric() == expected.Numeric()
    else if value.JArr? && expected.JArr? then
      |value.items| == |expected.items|
      && forall i :: 0 <= i < |value.items| ==> PyEq(value.items[i], expected.items[i])
    else if value.JObj? && expected.JObj? then
      value.members.Keys == expected.members.Keys
      && forall k :: k in value.members ==> PyEq(value.members[k], expected.members[k])
    else value == expected
  }

  lemma {:induction false} PyEqSeparates(value: Json, a: Json, b: Json)
    requires PyEq(value, a) && PyEq(value, b)
    ensures PyEq(a, b) && PyEq(b, a)
  {
    if value.JArr? {
      forall i | 0 <= i < |value.items|
        ensures PyEq(a.items[i], b.items[i]) && PyEq(b.items[i], a.items[i])
      {
        PyEqSeparates(value.items[i], a.items[i], b.items[i]);
      }
    } else if value.JObj? {
      forall k | k in value.members
        ensures PyEq(a.members[k], b.members[k]) && PyEq(b.members[k], a.members[k])
      {
        PyEqSeparates(value.members[k], a.members[k], b.members[k]);
      }
    }
  }

  lemma {:induction false} PyEqReflexive(value: Json)
    ensures PyEq(value, value)
  {
    if value.JArr? {
      forall i | 0 <= i < |value.items| { PyEqReflexive(value.items[i]); }
    } else if value.JObj? {
      forall k | k in value.members { PyEqReflexive(value.members[k]); }
    }
  }

  lemma PyEqSymmetric(a: Json, b: Json)
    requires PyEq(a, b)
    ensures PyEq(b, a)
  {
    PyEqReflexive(a);
    PyEqSeparates(a, a, b);
  }
}
