/**
  The browser-automation driver seen from the service: the callbacks it fires
  and the way its creation promise settles, in the order they reach the
  service. The driver itself is not modelled; a run of it is a trace of events.
 */
module Driver {
  import opened Wrappers
  import opened SessionRegistry

  datatype DriverEvent =
    | QrEmitted(base64: string)       // `catchQR` fired with a base64 image
    | StatusFound(native: string)     // `statusFind` fired with a driver status string
    | Resolved(client: Client)        // the creation promise resolved with a client
    | Rejected(message: string)       // the creation promise rejected with this message
    | TimedOut                        // the recovery timer fired

  /** Index of the first element satisfying `p`, if any. */
  function FirstWhere<T>(s: seq<T>, p: T -> bool): (r: Option<nat>)
    ensures r.Some? ==> r.value < |s| && p(s[r.value])
    ensures r.Some? ==> forall j :: 0 <= j < r.value ==> !p(s[j])
    ensures r.None? ==> forall j :: 0 <= j < |s| ==> !p(s[j])
    decreases |s|
  {
    if |s| == 0 then None
    else if p(s[0]) then Some(0)
    else match FirstWhere(s[1..], p)
      case None => None
      case Some(i) => Some(i + 1)
  }

  /** The first element satisfying `p` is unique: any index with the characterising property is it. */
  lemma FirstWhereUnique<T>(s: seq<T>, p: T -> bool, i: nat)
    requires i < |s| && p(s[i])
    requires forall j :: 0 <= j < i ==> !p(s[j])
    ensures FirstWhere(s, p) == Some(i)
  {
  }

  /** Extending a trace does not move an earlier first match, and a match in the new last element counts only if none came before. */
  lemma FirstWhereSnoc<T>(s: seq<T>, x: T, p: T -> bool)
    ensures FirstWhere(s, p).Some? ==> FirstWhere(s + [x], p) == FirstWhere(s, p)
    ensures FirstWhere(s, p).None? && p(x) ==> FirstWhere(s + [x], p) == Some(|s|)
    ensures FirstWhere(s, p).None? && !p(x) ==> FirstWhere(s + [x], p).None?
  {
    var t := s + [x];
    match FirstWhere(s, p)
    case Some(i) =>
      FirstWhereUnique(t, p, i);
    case None =>
      if p(x) {
        FirstWhereUnique(t, p, |s|);
      } else {
        assert forall j :: 0 <= j < |s| ==> t[j] == s[j];
      }
  }

  /** The value `f` extracts from the last element where it extracts one, if any. */
  function LastSome<T, U>(s: seq<T>, f: T -> Option<U>): (r: Option<U>)
    ensures r.Some? ==> exists i :: 0 <= i < |s| && f(s[i]) == r
    ensures r.None? <==> forall i :: 0 <= i < |s| ==> f(s[i]).None?
    decreases |s|
  {
    if |s| == 0 then None
    else if f(s[|s| - 1]).Some? then f(s[|s| - 1])
    else LastSome(s[..|s| - 1], f)
  }

  /** Appending an element: its value wins if it has one, otherwise the earlier last value stands. */
  lemma LastSomeSnoc<T, U>(s: seq<T>, x: T, f: T -> Option<U>)
    ensures LastSome(s + [x], f) == if f(x).Some? then f(x) else LastSome(s, f)
  {
    assert (s + [x])[..|s|] == s;
  }

  /** `m` with `name` rebound to `v` when there is one. */
  function Override<V>(m: map<string, V>, name: string, v: Option<V>): map<string, V>
  {
    if v.Some? then m[name := v.value] else m
  }
}
