/** Small helpers shared by every part of the model: the optional-value types,
    the nullish test and `??` operator, and removal of a key from an object. */
module Util {

  /** A TypeScript value that may be `undefined` or `null` besides a value of type T. */
  datatype Nullable<+T> = Undefined | Null | Defined(value: T)

  /** An optional field that is either absent or present (never `null`). */
  datatype Option<+T> = None | Some(value: T)

  /** The outcome of an operation that may throw. */
  datatype Result<+T, +E> = Ok(value: T) | Err(error: E)

  /** `isNil`: the loose `== null` test, true for `null` and `undefined` only. */
  predicate IsNil<T>(v: Nullable<T>)
    ensures IsNil(v) <==> !v.Defined?
  {
    v == Undefined || v == Null
  }

  /** A present value is never nil, whatever it is: `0`, `''` and `false` included. */
  lemma DefinedIsNotNil<T>(x: T)
    ensures !IsNil(Defined(x))
    ensures IsNil<T>(Undefined) && IsNil<T>(Null)
  {
  }

  /** The nullish-coalescing operator `v ?? fallback`. */
  function Coalesce<T>(v: Nullable<T>, fallback: T): (r: T)
    ensures IsNil(v) ==> r == fallback
    ensures !IsNil(v) ==> r == v.value
  {
    match v
    case Defined(x) => x
    case _ => fallback
  }

  /** `!isNil(v) && v.length > 0`: an optional string that is present and not empty. */
  predicate HasText(v: Nullable<string>)
  {
    !IsNil(v) && |v.value| > 0
  }

  /** Waiting for a list of steps that may each fail, in order: the list of
      their values when none failed, otherwise the first failure in list
      order. It is how a `map` whose callback throws stops at the first
      throw. For `Promise.all`, which rejects with whichever promise rejects
      first in time, it is the outcome of one schedule: the steps settling
      one after the other in launch order. */
  function AllOk<T, E>(rs: seq<Result<T, E>>): (r: Result<seq<T>, E>)
    ensures r.Ok? <==> forall i :: 0 <= i < |rs| ==> rs[i].Ok?
    ensures r.Ok? ==> |r.value| == |rs| && forall i :: 0 <= i < |rs| ==> rs[i] == Ok(r.value[i])
    ensures r.Err? ==> exists i :: 0 <= i < |rs| && rs[i] == Err(r.error) && forall j :: 0 <= j < i ==> rs[j].Ok?
  {
    if |rs| == 0 then Ok([])
    else if rs[0].Err? then Err(rs[0].error)
    else
      match AllOk(rs[1..])
      case Ok(vs) => Ok([rs[0].value] + vs)
      case Err(e) => Err(e)
  }

  /** The failure of `AllOk` is that of the first element that failed. */
  lemma FirstFailure<T, E>(rs: seq<Result<T, E>>, i: nat)
    requires i < |rs| && rs[i].Err?
    requires forall j :: 0 <= j < i ==> rs[j].Ok?
    ensures AllOk(rs) == Err(rs[i].error)
  {
    var k :| 0 <= k < |rs| && rs[k] == Err(AllOk(rs).error) && forall j :: 0 <= j < k ==> rs[j].Ok?;
  }

  /** A slice that takes everything is the whole sequence. */
  lemma TakeAll<T>(s: seq<T>)
    ensures s[..|s|] == s
  {
  }

  /** A slice one longer is the shorter slice and the next element. */
  lemma TakeNext<T>(s: seq<T>, i: nat)
    requires i < |s|
    ensures s[..i + 1] == s[..i] + [s[i]]
  {
  }

  /** The field map `fields` without `key`; every other field keeps its value. */
  function WithoutKey<V>(fields: map<string, V>, key: string): (r: map<string, V>)
    ensures key !in r
    ensures forall k :: k != key ==> (k in r <==> k in fields)
    ensures forall k :: k in r ==> r[k] == fields[k]
  {
    map k | k in fields && k != key :: fields[k]
  }

  /** A JavaScript object whose fields can be deleted in place. */
  class MutableObject<V> {
    var fields: map<string, V>

    constructor (fields: map<string, V>)
      ensures this.fields == fields
    {
      this.fields := fields;
    }
  }

  /** `removeKey`: deletes `key` from `obj` in place and returns the very same
      object, so every other reference to it also sees the key gone. */
  method RemoveKey<V>(obj: MutableObject<V>, key: string) returns (r: MutableObject<V>)
    modifies obj
    ensures r == obj
    ensures obj.fields == WithoutKey(old(obj.fields), key)
  {
    obj.fields := WithoutKey(obj.fields, key);
    r := obj;
  }
}
