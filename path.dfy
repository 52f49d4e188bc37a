/** `getNestedValue`: dotted-path lookup through own properties. */
module Path {
  import opened Wrappers
  import opened Text
  import opened Json

  /** One step of the `reduce`: a truthy current value's own property, otherwise `undefined`. */
  function Step(current: Option<Value>, key: string): (r: Option<Value>)
    ensures r.Some? ==> Present(current)
    ensures Present(current) ==> r == OwnProperty(current.value, key)
  {
    if Present(current) then OwnProperty(current.value, key) else None
  }

  /** The `reduce` over the path segments, starting from `current`. */
  function Follow(current: Option<Value>, keys: seq<string>): (r: Option<Value>)
    ensures keys == [] ==> r == current
    ensures keys != [] && r.Some? ==> Present(current)
    decreases |keys|
  {
    if keys == [] then current else Follow(Step(current, keys[0]), keys[1..])
  }

  /**
   * `getNestedValue(obj, path)`: `undefined` for a falsy object or an empty
   * path, otherwise the value reached by following each "."-separated segment.
   */
  function GetNestedValue(obj: Value, path: string): (r: Option<Value>)
    ensures !Truthy(obj) || path == "" ==> r == None
    ensures Truthy(obj) && path != "" && '.' !in path ==> r == OwnProperty(obj, path)
  {
    if !Truthy(obj) || path == "" then None
    else
      SplitWithoutSeparator(path, '.');
      assert '.' !in path ==>
        (Split(path, '.')[1..] == [] && Follow(Some(obj), Split(path, '.')) == Follow(Step(Some(obj), path), []));
      Follow(Some(obj), Split(path, '.'))
  }

  /** Once a step has failed, the lookup stays `undefined`. */
  lemma {:induction false} FollowUndefined(keys: seq<string>)
    ensures Follow(None, keys) == None
    decreases |keys|
  {
    if keys != [] {
      FollowUndefined(keys[1..]);
    }
  }

  /** Following `a + b` is following `a`, then `b`. */
  lemma {:induction false} FollowAppend(current: Option<Value>, a: seq<string>, b: seq<string>)
    ensures Follow(current, a + b) == Follow(Follow(current, a), b)
    decreases |a|
  {
    if a != [] {
      assert (a + b)[1..] == a[1..] + b;
      FollowAppend(Step(current, a[0]), a[1..], b);
    } else {
      assert a + b == b;
    }
  }

  /** Following the segments before `i` and then segment `i`. */
  lemma FollowPrefixStep(current: Option<Value>, keys: seq<string>, i: nat)
    requires i < |keys|
    ensures Follow(current, keys[..i + 1]) == Step(Follow(current, keys[..i]), keys[i])
  {
    assert keys[..i + 1] == keys[..i] + [keys[i]];
    FollowAppend(current, keys[..i], [keys[i]]);
  }

  /** Any missing segment makes the whole lookup `undefined`. */
  lemma MissingSegment(obj: Value, path: string, i: nat)
    requires path != ""
    requires i < |Split(path, '.')|
    requires Step(Follow(Some(obj), Split(path, '.')[..i]), Split(path, '.')[i]) == None
    ensures GetNestedValue(obj, path) == None
  {
    var keys := Split(path, '.');
    FollowPrefixStep(Some(obj), keys, i);
    assert keys == keys[..i + 1] + keys[i + 1..];
    FollowAppend(Some(obj), keys[..i + 1], keys[i + 1..]);
    FollowUndefined(keys[i + 1..]);
  }

  /**
   * The lookup yields a value exactly when the object is truthy, the path is
   * non-empty and every segment is an own property of the value reached so far.
   */
  lemma GetNestedValueDefined(obj: Value, path: string)
    ensures GetNestedValue(obj, path).Some? <==>
      Truthy(obj) && path != "" &&
      forall i :: 0 <= i < |Split(path, '.')| ==>
        Step(Follow(Some(obj), Split(path, '.')[..i]), Split(path, '.')[i]).Some?
  {
    if Truthy(obj) && path != "" {
      var keys := Split(path, '.');
      if GetNestedValue(obj, path).Some? {
        forall i | 0 <= i < |keys| ensures Step(Follow(Some(obj), keys[..i]), keys[i]).Some? {
          if Step(Follow(Some(obj), keys[..i]), keys[i]) == None {
            MissingSegment(obj, path, i);
          }
        }
      } else {
        var n := |keys| - 1;
        FollowPrefixStep(Some(obj), keys, n);
        assert keys[..n + 1] == keys;
        assert Step(Follow(Some(obj), keys[..n]), keys[n]) == None;
      }
    }
  }

  /**
   * Looking up "p.q" is looking up "p" and then looking up "q" in what was
   * found: dotted paths compose.
   */
  lemma GetNestedValueDotted(obj: Value, p: string, q: string)
    requires p != "" && q != ""
    ensures GetNestedValue(obj, p + "." + q) ==
      match GetNestedValue(obj, p)
      case None => None
      case Some(v) => GetNestedValue(v, q)
  {
    if Truthy(obj) {
      SplitAtSeparator(p, q, '.');
      FollowAppend(Some(obj), Split(p, '.'), Split(q, '.'));
      match GetNestedValue(obj, p)
      case None =>
        FollowUndefined(Split(q, '.'));
      case Some(v) =>
        var keys := Split(q, '.');
        if !Truthy(v) {
          FollowUndefined(keys[1..]);
        }
    }
  }
}
