/**
 * The `keys` fallback of common.js: collect the names a `for ... in` loop
 * visits, keeping those that pass `hasOwnProperty`.
 */
module ObjectKeys {

  /** No name occurs twice. */
  predicate Distinct(names: seq<string>)
  {
    forall i, j :: 0 <= i < j < |names| ==> names[i] != names[j]
  }

  /** Pushing a name not seen yet keeps the names distinct and counted. */
  lemma PushNewName(keys: seq<string>, done: set<string>, k: string)
    requires Distinct(keys) && |keys| == |done|
    requires forall x :: x in keys <==> x in done
    requires k !in done
    ensures Distinct(keys + [k]) && |keys + [k]| == |done + {k}|
    ensures forall x :: x in keys + [k] <==> x in done + {k}
  {
  }

  /**
   * `own` holds the object's own enumerable properties and `inherited` the
   * enumerable names reachable through its prototype chain; `for ... in`
   * visits every name of either kind once, in an order the model leaves
   * open.
   */
  method Keys<V>(own: map<string, V>, inherited: set<string>) returns (keys: seq<string>)
    ensures forall k :: k in keys <==> k in own
    ensures Distinct(keys)
    ensures |keys| == |own|
  {
    keys := [];
    var todo := own.Keys + inherited;
    ghost var done: set<string> := {};
    while todo != {}
      invariant forall x :: x in done <==> x in own && x !in todo
      invariant forall k :: k in keys <==> k in done
      invariant Distinct(keys)
      invariant |keys| == |done|
      decreases todo
    {
      var k :| k in todo;
      if k in own {
        // hasOwnProperty holds: the name is pushed, and it is new
        PushNewName(keys, done, k);
        keys := keys + [k];
        done := done + {k};
      }
      todo := todo - {k};
    }
    assert done == own.Keys;
  }
}
