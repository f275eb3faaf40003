/**
 * `load_object`: the fragments found for the candidate files in one
 * directory, merged left to right onto an accumulator that is updated in
 * place and returned.
 */
module Merge {
  import opened Wrappers
  import opened JsObjects

  /**
   * What loading `dir + "/" + file` yields: the module's exports, or `None`
   * when there is no such module (loading never throws).
   */
  type Source = (string, string) -> Option<Value>

  /** `_(file_names).map(to_obj).filter(_.identity)`: the truthy fragments, in candidate order. */
  function Loaded(source: Source, dir: string, files: seq<string>): (r: seq<Value>)
    ensures |r| <= |files|
    ensures forall v <- r :: Truthy(v)
  {
    if files == [] then []
    else
      var f := source(dir, files[0]);
      (if f.Some? && Truthy(f.value) then [f.value] else []) + Loaded(source, dir, files[1..])
  }

  /** A fragment is loaded exactly when some candidate file yields it and it is truthy. */
  lemma {:induction false} LoadedMembers(source: Source, dir: string, files: seq<string>, v: Value)
    ensures v in Loaded(source, dir, files) <==>
      Truthy(v) && exists i | 0 <= i < |files| :: source(dir, files[i]) == Some(v)
  {
    if files != [] {
      LoadedMembers(source, dir, files[1..], v);
      if source(dir, files[0]) != Some(v) {
        forall i | 1 <= i < |files| ensures files[i] == files[1..][i - 1] {}
      }
    }
  }

  /** Loading keeps candidate order: the fragments of a longer list extend those of its prefix. */
  lemma {:induction false} LoadedAppend(source: Source, dir: string, a: seq<string>, b: seq<string>)
    ensures Loaded(source, dir, a + b) == Loaded(source, dir, a) + Loaded(source, dir, b)
  {
    if a != [] {
      assert (a + b)[1..] == a[1..] + b;
      LoadedAppend(source, dir, a[1..], b);
    } else {
      assert a + b == b;
    }
  }

  /** `_.extend(obj, s1, ..., sn)`: each fragment extends the result of the ones before it. */
  function Merged(p: Props, srcs: seq<Value>): Props
    decreases |srcs|
  {
    if srcs == [] then p else Merged(Extended(p, srcs[0]), srcs[1..])
  }

  /** Merging is a left fold: merging one more fragment extends the previous merge with it. */
  lemma {:induction false} MergedSnoc(p: Props, srcs: seq<Value>, s: Value)
    ensures Merged(p, srcs + [s]) == Extended(Merged(p, srcs), s)
    decreases |srcs|
  {
    if srcs == [] {
      assert Merged(Extended(p, s), []) == Extended(p, s);
    } else {
      assert (srcs + [s])[1..] == srcs[1..] + [s];
      MergedSnoc(Extended(p, srcs[0]), srcs[1..], s);
    }
  }

  /** Every fragment is a well-formed object when it is an object at all. */
  ghost predicate WellFormedFragments(srcs: seq<Value>) {
    forall v <- srcs :: v.Obj? ==> v.props.Wf()
  }

  /** The value the last (highest-precedence) fragment defining `k` gives it. */
  function LastDefining(srcs: seq<Value>, k: string): (r: Option<Value>)
    ensures r.None? <==> forall v <- srcs :: k !in OwnProps(v)
    decreases |srcs|
  {
    if srcs == [] then None
    else
      var last := srcs[|srcs| - 1];
      if k in OwnProps(last) then Some(OwnProps(last)[k])
      else
        assert srcs == srcs[..|srcs| - 1] + [last];
        LastDefining(srcs[..|srcs| - 1], k)
  }

  /**
   * Precedence: after merging, a key's value is the one the last fragment
   * defining it gives (replaced wholesale, never combined), and a key no
   * fragment defines keeps its base value; the result stays well formed and
   * the keys already present keep their positions.
   */
  lemma {:induction false} Precedence(p: Props, srcs: seq<Value>)
    requires p.Wf()
    requires WellFormedFragments(srcs)
    ensures Merged(p, srcs).Wf()
    ensures forall k :: k in Merged(p, srcs).vals <==> k in p.vals || LastDefining(srcs, k).Some?
    ensures forall k :: Get(Merged(p, srcs), k) == LastDefining(srcs, k).GetOr(Get(p, k))
    ensures |p.keys| <= |Merged(p, srcs).keys|
    ensures Merged(p, srcs).keys[..|p.keys|] == p.keys
    decreases |srcs|
  {
    if srcs != [] {
      var init := srcs[..|srcs| - 1];
      var last := srcs[|srcs| - 1];
      assert srcs == init + [last];
      assert WellFormedFragments(init) by {
        forall v <- init ensures v in srcs {}
      }
      Precedence(p, init);
      MergedSnoc(p, init, last);
      var q := Merged(p, init);
      var r := Extended(q, last);
      assert Merged(p, srcs) == r;
      ExtendedValues(q, last);
      forall k
        ensures (k in r.vals <==> k in p.vals || LastDefining(srcs, k).Some?)
        ensures Get(r, k) == LastDefining(srcs, k).GetOr(Get(p, k))
      {
        if k !in OwnProps(last) {
          assert LastDefining(srcs, k) == LastDefining(init, k);
        }
      }
      assert r.keys[..|q.keys|][..|p.keys|] == r.keys[..|p.keys|];
    }
  }

  /**
   * `load_object(obj, dir)`: merges the truthy fragments found for `files`
   * in `dir` onto `obj`, in place, and returns the same object.
   */
  method LoadObject(obj: JsObject, dir: string, files: seq<string>, source: Source) returns (r: JsObject)
    requires obj.Valid()
    modifies obj
    ensures r == obj && obj.Valid()
    ensures obj.props == Merged(old(obj.props), Loaded(source, dir, files))
    ensures Loaded(source, dir, files) == [] ==> obj.props == old(obj.props)
  {
    var objs := Loaded(source, dir, files);
    var i := 0;
    while i < |objs|
      invariant 0 <= i <= |objs|
      invariant obj.Valid()
      invariant obj.props == Merged(old(obj.props), objs[..i])
    {
      assert objs[..i + 1] == objs[..i] + [objs[i]];
      MergedSnoc(old(obj.props), objs[..i], objs[i]);
      obj.Extend(objs[i]);
      i := i + 1;
    }
    assert objs[..|objs|] == objs;
    r := obj;
  }
}
