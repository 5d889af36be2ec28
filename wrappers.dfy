/** Option and Result types shared by the whole model, and the Python
    exceptions that the modelled code can raise. */
module Wrappers {

  datatype Option<+T> = None | Some(value: T)

  /** The built-in exceptions the modelled functions raise on bad input. */
  datatype PyError =
    | IndexError(what: string)
    | KeyError(key: string)
    | TypeError(what: string)
    | ValueError(what: string)
    | Exception(what: string)

  /** The outcome of a Python call: a value, or the exception it raises. */
  datatype Result<+T> = Ok(value: T) | Err(error: PyError)

  /** A list comprehension `[f(x) for x in xs]` whose element function may
      raise: the elements are computed left to right and the first exception
      propagates. */
  function MapAll<A, B>(f: A -> Result<B>, xs: seq<A>): (r: Result<seq<B>>)
    ensures r.Ok? <==> forall i :: 0 <= i < |xs| ==> f(xs[i]).Ok?
    ensures r.Ok? ==> |r.value| == |xs| && forall i :: 0 <= i < |xs| ==> f(xs[i]) == Ok(r.value[i])
    ensures r.Err? ==> exists i :: 0 <= i < |xs| && f(xs[i]) == Err(r.error)
                                  && forall k :: 0 <= k < i ==> f(xs[k]).Ok?
  {
    if xs == [] then Ok([])
    else
      var pre := xs[..|xs| - 1];
      assert forall i :: 0 <= i < |pre| ==> pre[i] == xs[i];
      match MapAll(f, pre)
      case Err(e) => Err(e)
      case Ok(vs) =>
        match f(xs[|xs| - 1])
        case Err(e) => Err(e)
        case Ok(v) => Ok(vs + [v])
  }

  /** `MapAll` succeeds with `xs` when every element maps to the matching one of `xs`. */
  lemma MapAllPointwise<A, B>(f: A -> Result<B>, ys: seq<A>, xs: seq<B>)
    requires |ys| == |xs| && forall i :: 0 <= i < |ys| ==> f(ys[i]) == Ok(xs[i])
    ensures MapAll(f, ys) == Ok(xs)
  {
    var r := MapAll(f, ys);
    assert r.Ok?;
    assert r.value == xs;
  }

  /** `MapAll` fails with the exception of its first failing element. */
  lemma MapAllFirstError<A, B>(f: A -> Result<B>, xs: seq<A>, i: nat)
    requires i < |xs| && f(xs[i]).Err? && forall k :: 0 <= k < i ==> f(xs[k]).Ok?
    ensures MapAll(f, xs) == Err(f(xs[i]).error)
  {
    var r := MapAll(f, xs);
    assert !r.Ok?;
    var j :| 0 <= j < |xs| && f(xs[j]) == Err(r.error) && forall k :: 0 <= k < j ==> f(xs[k]).Ok?;
    assert j == i;
  }

  /** `[x for x in xs if p(x)]`: the elements that pass, in order. */
  function Filter<T>(p: T -> bool, xs: seq<T>): (r: seq<T>)
    ensures |r| <= |xs|
    ensures forall i :: 0 <= i < |r| ==> r[i] in xs && p(r[i])
    ensures forall i :: 0 <= i < |xs| && p(xs[i]) ==> xs[i] in r
  {
    if xs == [] then [] else (if p(xs[0]) then [xs[0]] else []) + Filter(p, xs[1..])
  }

  /** `d[k].append(x)` on a `defaultdict(list)`. */
  function Append<K, T>(m: map<K, seq<T>>, k: K, x: T): (r: map<K, seq<T>>)
    ensures r.Keys == m.Keys + {k}
    ensures r[k] == (if k in m then m[k] else []) + [x]
    ensures forall j :: j in m && j != k ==> r[j] == m[j]
  {
    m[k := (if k in m then m[k] else []) + [x]]
  }
}
