/**
 * `Object.prototype.extend` of common.js: merge the properties of every
 * argument, left to right, into the target object; a leading boolean
 * argument selects a deep merge, in which a property whose new value is a
 * plain object is merged recursively instead of being overwritten.
 */
module ObjectExtend {
  import opened JsValue

  /**
   * The target after the inner `merge(target, source)`.  Every own property
   * of the source is visited exactly once and the entries are independent,
   * so the order of the `for ... in` loop does not matter.  In deep mode a
   * plain-object source value is merged into the target's entry: a missing
   * or falsy entry is first replaced by `{}`, and a truthy entry that is not
   * a plain object is left as it was (calling `extend` on it merges into a
   * temporary wrapper that is then dropped).  Otherwise the source value is
   * copied.
   */
  function Merged(target: Props, source: Props, deep: bool): (r: Props)
    ensures r.Keys == target.Keys + source.Keys
    ensures forall p :: p in target && p !in source ==> r[p] == target[p]
    decreases Obj(source)
  {
    map p | p in target.Keys + source.Keys ::
      if p !in source then target[p]
      else if deep && IsPlainObject(source[p]) then
        if p !in target || Falsy(target[p]) then Obj(Merged(map[], source[p].props, true))
        else if target[p].Obj? then Obj(Merged(target[p].props, source[p].props, true))
        else target[p]
      else source[p]
  }

  /** The target after merging `sources` one after the other, left to right. */
  function MergedAll(target: Props, sources: seq<Value>, deep: bool): (r: Props)
    decreases |sources|
  {
    if sources == [] then target
    else Merged(MergedAll(target, sources[..|sources| - 1], deep), OwnProps(sources[|sources| - 1]), deep)
  }

  /** The target after `target.extend(args...)`. */
  function Extended(target: Props, args: seq<Value>): (r: Props)
  {
    if |args| > 0 && args[0].Bool? then MergedAll(target, args[1..], args[0].b)
    else MergedAll(target, args, false)
  }

  /** Every key any of `sources` owns. */
  function SourceKeys(sources: seq<Value>): (r: set<string>)
    decreases |sources|
  {
    if sources == [] then {}
    else SourceKeys(sources[..|sources| - 1]) + OwnProps(sources[|sources| - 1]).Keys
  }

  /** The inner `merge` closure: one pass over the own properties of `source`. */
  method Merge(target: Props, source: Props, deep: bool) returns (t: Props)
    ensures t == Merged(target, source, deep)
    decreases Obj(source)
  {
    ghost var goal := Merged(target, source, deep);
    t := target;
    var todo := source.Keys;
    while todo != {}
      invariant todo <= source.Keys
      invariant forall p :: p in t <==> p in target || (p in source && p !in todo)
      invariant forall p :: p in t ==> t[p] == if p in todo then target[p] else goal[p]
      decreases todo
    {
      var p :| p in todo;
      var sv := source[p];
      var v := sv;
      if deep && IsPlainObject(sv) {
        if p !in t || Falsy(t[p]) {
          var sub := Merge(map[], sv.props, true);
          v := Obj(sub);
        } else if t[p].Obj? {
          var sub := Merge(t[p].props, sv.props, true);
          v := Obj(sub);
        } else {
          v := t[p];
        }
      }
      MergedAt(target, source, deep, p);
      assert v == goal[p];
      t := t[p := v];
      todo := todo - {p};
    }
  }

  /** The entry of one source property, as `merge` computes it. */
  lemma MergedAt(target: Props, source: Props, deep: bool, p: string)
    requires p in source
    ensures var sv := source[p];
      Merged(target, source, deep)[p] ==
        if deep && IsPlainObject(sv) then
          if p !in target || Falsy(target[p]) then Obj(Merged(map[], sv.props, true))
          else if target[p].Obj? then Obj(Merged(target[p].props, sv.props, true))
          else target[p]
        else sv
  {
  }

  /** `extend` on a target given as the map of its properties. */
  method ExtendProps(target: Props, args: seq<Value>) returns (t: Props)
    ensures t == Extended(target, args)
  {
    var i := 0;
    var deep := false;
    if |args| > 0 && args[0].Bool? {
      deep := args[0].b;
      i := i + 1;
    }
    var first := i;
    t := target;
    while i < |args|
      invariant first <= i <= |args|
      invariant t == MergedAll(target, args[first..i], deep)
    {
      MergedAllStep(target, args, first, i, deep);
      t := Merge(t, OwnProps(args[i]), deep);
      i := i + 1;
    }
    assert args[first..] == args[first..|args|];
  }

  /** Merging one more argument extends the fold by one step. */
  lemma MergedAllStep(target: Props, args: seq<Value>, first: nat, i: nat, deep: bool)
    requires first <= i < |args|
    ensures MergedAll(target, args[first..i + 1], deep)
         == Merged(MergedAll(target, args[first..i], deep), OwnProps(args[i]), deep)
  {
    var xs := args[first..i + 1];
    assert xs[..|xs| - 1] == args[first..i];
    assert xs[|xs| - 1] == args[i];
  }

  // Shallow mode

  /** A shallow merge is map override: the source's entries replace the target's. */
  lemma ShallowMergeIsOverride(target: Props, source: Props)
    ensures Merged(target, source, false) == target + source
  {
  }

  /**
   * In shallow mode the last source that owns `p` decides `target[p]`.
   */
  lemma {:induction false} ShallowLastSourceWins(target: Props, sources: seq<Value>, p: string, j: nat)
    requires j < |sources| && p in OwnProps(sources[j])
    requires forall k :: j < k < |sources| ==> p !in OwnProps(sources[k])
    ensures p in MergedAll(target, sources, false)
    ensures MergedAll(target, sources, false)[p] == OwnProps(sources[j])[p]
  {
    var last := |sources| - 1;
    if j < last {
      var prefix := sources[..last];
      assert prefix[j] == sources[j];
      assert forall k :: j < k < |prefix| ==> prefix[k] == sources[k];
      ShallowLastSourceWins(target, prefix, p, j);
      assert p !in OwnProps(sources[last]);
    }
  }

  /** A key no source owns keeps the target's entry (or stays absent), in both modes. */
  lemma {:induction false} UntouchedKeys(target: Props, sources: seq<Value>, deep: bool, p: string)
    requires p !in SourceKeys(sources)
    ensures p in MergedAll(target, sources, deep) <==> p in target
    ensures p in target ==> MergedAll(target, sources, deep)[p] == target[p]
  {
    if sources != [] {
      UntouchedKeys(target, sources[..|sources| - 1], deep, p);
    }
  }

  /** The merged target owns exactly its own keys and those of every source. */
  lemma {:induction false} MergedAllKeys(target: Props, sources: seq<Value>, deep: bool)
    ensures MergedAll(target, sources, deep).Keys == target.Keys + SourceKeys(sources)
  {
    if sources != [] {
      MergedAllKeys(target, sources[..|sources| - 1], deep);
    }
  }

  /**
   * A leading boolean only selects the mode: it owns no properties, so the
   * keys after `extend` are those of the target and of the other arguments.
   */
  lemma ExtendedKeys(target: Props, args: seq<Value>)
    ensures Extended(target, args).Keys == target.Keys + SourceKeys(args)
  {
    if |args| > 0 && args[0].Bool? {
      MergedAllKeys(target, args[1..], args[0].b);
      SourceKeysOfTail(args);
    } else {
      MergedAllKeys(target, args, false);
    }
  }

  lemma {:induction false} SourceKeysOfTail(args: seq<Value>)
    requires |args| > 0 && !args[0].Obj?
    ensures SourceKeys(args) == SourceKeys(args[1..])
    decreases |args|
  {
    if |args| > 1 {
      var last := |args| - 1;
      assert args[1..][..last - 1] == args[..last][1..];
      SourceKeysOfTail(args[..last]);
    }
  }

  // Deep mode

  /** Deep-merging into an empty object yields a (deep) copy of the source. */
  lemma {:induction false} DeepMergeIntoEmptyCopies(source: Props)
    ensures Merged(map[], source, true) == source
    decreases Obj(source)
  {
    forall p | p in source && source[p].Obj?
      ensures Merged(map[], source[p].props, true) == source[p].props
    {
      DeepMergeIntoEmptyCopies(source[p].props);
    }
  }

  /**
   * In deep mode a plain-object source value that meets a missing or falsy
   * target entry ends up copied there in full.
   */
  lemma DeepMergeFalsyEntry(target: Props, source: Props, p: string)
    requires p in source && IsPlainObject(source[p])
    requires p !in target || Falsy(target[p])
    ensures Merged(target, source, true)[p] == source[p]
  {
    DeepMergeIntoEmptyCopies(source[p].props);
  }

  /**
   * In deep mode two plain objects under the same key are merged: the
   * nested object owns the keys of both.
   */
  lemma DeepMergeNested(target: Props, source: Props, p: string)
    requires p in source && IsPlainObject(source[p])
    requires p in target && IsPlainObject(target[p])
    ensures IsPlainObject(Merged(target, source, true)[p])
    ensures Merged(target, source, true)[p].props.Keys == target[p].props.Keys + source[p].props.Keys
  {
  }

  /** A deep merge of a source holding no plain objects is a shallow merge. */
  lemma DeepWithoutObjectsIsShallow(target: Props, source: Props)
    requires forall p :: p in source ==> !IsPlainObject(source[p])
    ensures Merged(target, source, true) == Merged(target, source, false)
  {
  }

  /** Merging the same source a second time changes nothing, in either mode. */
  lemma {:induction false} MergeIdempotent(target: Props, source: Props, deep: bool)
    ensures Merged(Merged(target, source, deep), source, deep) == Merged(target, source, deep)
    decreases Obj(source)
  {
    var once := Merged(target, source, deep);
    forall p | p in source && deep && IsPlainObject(source[p])
      ensures Merged(once, source, deep)[p] == once[p]
    {
      var sv := source[p];
      if p !in target || Falsy(target[p]) {
        MergeIdempotent(map[], sv.props, true);
        assert once[p] == Obj(Merged(map[], sv.props, true));
        assert !Falsy(once[p]);
      } else if target[p].Obj? {
        MergeIdempotent(target[p].props, sv.props, true);
        assert once[p] == Obj(Merged(target[p].props, sv.props, true));
        assert !Falsy(once[p]);
      } else {
        assert once[p] == target[p];
      }
    }
  }

  // The worked example of the documentation comment.

  function ExampleTarget(): Props
  {
    map["a" := Num(1.0), "b" := Num(1.0), "c" := Obj(map["d" := Num(1.0)])]
  }

  function ExampleFirst(): Value
  {
    Obj(map["a" := Num(2.0), "b" := Num(2.0)])
  }

  function ExampleSecond(): Value
  {
    Obj(map["a" := Num(3.0), "c" := Obj(map["e" := Num(1.0)])])
  }

  /** With a leading `true` the nested object under "c" is merged. */
  lemma DocumentedDeepExample()
    ensures Extended(ExampleTarget(), [Bool(true), ExampleFirst(), ExampleSecond()])
         == map["a" := Num(3.0), "b" := Num(2.0), "c" := Obj(map["d" := Num(1.0), "e" := Num(1.0)])]
  {
    var args := [Bool(true), ExampleFirst(), ExampleSecond()];
    assert args[1..] == [ExampleFirst(), ExampleSecond()];
    assert [ExampleFirst(), ExampleSecond()][..1] == [ExampleFirst()];
    ExampleFirstStep(true);
    ExampleDeepSecondStep();
  }

  lemma ExampleDeepSecondStep()
    ensures Merged(ExampleAfterFirst(), ExampleSecond().props, true)
         == map["a" := Num(3.0), "b" := Num(2.0), "c" := Obj(map["d" := Num(1.0), "e" := Num(1.0)])]
  {
    var target, source := ExampleAfterFirst(), ExampleSecond().props;
    var r := Merged(target, source, true);
    var expected := map["a" := Num(3.0), "b" := Num(2.0), "c" := Obj(map["d" := Num(1.0), "e" := Num(1.0)])];
    assert r.Keys == expected.Keys;
    MergedAt(target, source, true, "a");
    assert r["a"] == expected["a"];
    assert r["b"] == expected["b"];
    MergedAt(target, source, true, "c");
    assert !Falsy(target["c"]) && target["c"].Obj?;
    NestedExampleStep();
    assert r["c"] == expected["c"];
  }

  /** Without the flag the nested object under "c" is replaced. */
  lemma DocumentedShallowExample()
    ensures Extended(ExampleTarget(), [ExampleFirst(), ExampleSecond()])
         == map["a" := Num(3.0), "b" := Num(2.0), "c" := Obj(map["e" := Num(1.0)])]
  {
    assert [ExampleFirst(), ExampleSecond()][..1] == [ExampleFirst()];
    ExampleFirstStep(false);
    ShallowMergeIsOverride(ExampleAfterFirst(), ExampleSecond().props);
  }

  function ExampleAfterFirst(): Props
  {
    map["a" := Num(2.0), "b" := Num(2.0), "c" := Obj(map["d" := Num(1.0)])]
  }

  lemma ExampleFirstStep(deep: bool)
    ensures MergedAll(ExampleTarget(), [ExampleFirst()], deep) == ExampleAfterFirst()
  {
    assert [ExampleFirst()][..0] == [];
    DeepWithoutObjectsIsShallow(ExampleTarget(), ExampleFirst().props);
    ShallowMergeIsOverride(ExampleTarget(), ExampleFirst().props);
  }

  lemma NestedExampleStep()
    ensures Merged(map["d" := Num(1.0)], map["e" := Num(1.0)], true) == map["d" := Num(1.0), "e" := Num(1.0)]
  {
    var r := Merged(map["d" := Num(1.0)], map["e" := Num(1.0)], true);
    assert r.Keys == {"d", "e"};
    assert r["e"] == Num(1.0);
  }

  /** A plain object whose own properties `extend` updates in place. */
  class PlainObject {
    var props: Props

    constructor (init: Props)
      ensures props == init
    {
      props := init;
    }

    method Extend(args: seq<Value>)
      modifies this
      ensures props == Extended(old(props), args)
    {
      var r := ExtendProps(props, args);
      props := r;
    }
  }
}
