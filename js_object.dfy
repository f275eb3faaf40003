/**
 * Plain JavaScript objects as the resolution pipeline sees them: values,
 * own properties in insertion order, property assignment (`obj[key] = v`),
 * underscore's `_.extend`, and calls of loaded functions.
 */
module JsObjects {
  import opened Wrappers

  /** A JavaScript value, as far as configuration resolution observes it. */
  datatype Value =
    | Undefined
    | Null
    | Bool(b: bool)
    | Num(n: int)
    | Str(s: string)
    | Fn(id: nat)
    | Obj(props: Props)

  /** No key is listed twice. */
  ghost predicate Distinct(ks: seq<string>) {
    forall i, j | 0 <= i < j < |ks| :: ks[i] != ks[j]
  }

  /** Dropping the first key of a distinct list leaves a distinct list without it. */
  lemma DistinctTail(ks: seq<string>)
    requires ks != [] && Distinct(ks)
    ensures Distinct(ks[1..]) && ks[0] !in ks[1..]
  {
    assert forall i, j | 0 <= i < j < |ks[1..]| :: ks[1..][i] == ks[i + 1] && ks[1..][j] == ks[j + 1];
    forall j | 0 <= j < |ks[1..]| ensures ks[1..][j] != ks[0] {
      assert ks[1..][j] == ks[j + 1];
    }
  }

  /** A key not yet listed may go in front of a distinct list. */
  lemma DistinctCons(k: string, ks: seq<string>)
    requires k !in ks && Distinct(ks)
    ensures Distinct([k] + ks)
  {
    var r := [k] + ks;
    forall i, j | 0 <= i < j < |r| ensures r[i] != r[j] {
      assert r[j] == ks[j - 1];
      if i > 0 {
        assert r[i] == ks[i - 1];
      }
    }
  }

  /** A distinct list holds each key at most once. */
  lemma {:induction false} DistinctCount(ks: seq<string>)
    requires Distinct(ks)
    ensures forall k :: multiset(ks)[k] <= 1
  {
    if ks != [] {
      DistinctTail(ks);
      DistinctCount(ks[1..]);
      assert ks == [ks[0]] + ks[1..];
      assert multiset(ks) == multiset{ks[0]} + multiset(ks[1..]);
    }
  }

  /** A key found at two positions is counted at least twice. */
  lemma CountTwice(b: seq<string>, i: nat, j: nat)
    requires i < j < |b|
    ensures b[i] == b[j] ==> multiset(b)[b[j]] >= 2
  {
    assert b == b[..j] + [b[j]] + b[j + 1..];
    assert b[i] in multiset(b[..j]) by { assert b[..j][i] == b[i]; }
    assert multiset(b) == multiset(b[..j]) + multiset{b[j]} + multiset(b[j + 1..]);
  }

  /** Any rearrangement of a distinct list is distinct. */
  lemma DistinctPermutation(a: seq<string>, b: seq<string>)
    requires Distinct(a) && multiset(a) == multiset(b)
    ensures Distinct(b)
  {
    DistinctCount(a);
    forall i, j | 0 <= i < j < |b| ensures b[i] != b[j] {
      CountTwice(b, i, j);
    }
  }

  /** The own enumerable properties of an object: keys in insertion order and their values. */
  datatype Props = Props(keys: seq<string>, vals: map<string, Value>) {
    /** The keys are distinct and are exactly the keys that have a value. */
    ghost predicate Wf() {
      && Distinct(keys)
      && (forall k :: k in vals <==> k in keys)
    }
  }

  /** A fresh `{}`. */
  const Empty := Props([], map[])

  /** JavaScript's ToBoolean. */
  predicate Truthy(v: Value) {
    match v
    case Undefined => false
    case Null => false
    case Bool(b) => b
    case Num(n) => n != 0
    case Str(s) => s != ""
    case Fn(_) => true
    case Obj(_) => true
  }

  /** `obj[key]` for an own key, `undefined` otherwise. */
  function Get(p: Props, k: string): Value {
    if k in p.vals then p.vals[k] else Undefined
  }

  /** The own properties of a value that `_.extend` copies: those of a plain object, none otherwise. */
  function OwnProps(v: Value): map<string, Value> {
    if v.Obj? then v.props.vals else map[]
  }

  /** `obj[key] = v`: an existing key keeps its position, a new key goes last. */
  function Assign(p: Props, k: string, v: Value): (r: Props)
    ensures p.Wf() ==> r.Wf()
    ensures r.vals == p.vals[k := v]
    ensures |p.keys| <= |r.keys| && r.keys[..|p.keys|] == p.keys
  {
    if k in p.vals then Props(p.keys, p.vals[k := v])
    else Props(p.keys + [k], p.vals[k := v])
  }

  /** The assignments `_.extend(obj, src)` performs for the keys `ks` of `src`, in order. */
  function ExtendKeys(p: Props, src: Props, ks: seq<string>): Props
    decreases |ks|
  {
    if ks == [] then p
    else
      var k := ks[|ks| - 1];
      Assign(ExtendKeys(p, src, ks[..|ks| - 1]), k, Get(src, k))
  }

  /** `_.extend(obj, src)` for one source: every own property of a plain object overwrites obj's. */
  function Extended(p: Props, src: Value): Props {
    if src.Obj? then ExtendKeys(p, src.props, src.props.keys) else p
  }

  /** Assigning the keys `ks` keeps an object well formed, and existing keys keep their place. */
  lemma {:induction false} ExtendKeysShape(p: Props, src: Props, ks: seq<string>)
    requires p.Wf()
    ensures ExtendKeys(p, src, ks).Wf()
    ensures |p.keys| <= |ExtendKeys(p, src, ks).keys|
    ensures ExtendKeys(p, src, ks).keys[..|p.keys|] == p.keys
    decreases |ks|
  {
    if ks != [] {
      var init := ks[..|ks| - 1];
      ExtendKeysShape(p, src, init);
      var q := ExtendKeys(p, src, init);
      var r := Assign(q, ks[|ks| - 1], Get(src, ks[|ks| - 1]));
      assert r == ExtendKeys(p, src, ks);
      assert r.keys[..|q.keys|][..|p.keys|] == r.keys[..|p.keys|];
    }
  }

  /** The keys listed in `ks` take their value from `src`; all others keep theirs. */
  lemma {:induction false} ExtendKeysValues(p: Props, src: Props, ks: seq<string>)
    ensures forall j :: j in ExtendKeys(p, src, ks).vals <==> j in p.vals || j in ks
    ensures forall j :: Get(ExtendKeys(p, src, ks), j) == if j in ks then Get(src, j) else Get(p, j)
    decreases |ks|
  {
    if ks != [] {
      var init := ks[..|ks| - 1];
      ExtendKeysValues(p, src, init);
      assert ks == init + [ks[|ks| - 1]];
    }
  }

  /** The keys of `ks` that `p` lacks, in order. */
  function Fresh(ks: seq<string>, p: Props): seq<string>
    decreases |ks|
  {
    if ks == [] then []
    else
      var k := ks[|ks| - 1];
      Fresh(ks[..|ks| - 1], p) + (if k in p.vals then [] else [k])
  }

  /** Assigning distinct keys leaves existing keys in place and appends the new ones, in order. */
  lemma {:induction false} ExtendKeysOrder(p: Props, src: Props, ks: seq<string>)
    requires Distinct(ks)
    ensures ExtendKeys(p, src, ks).keys == p.keys + Fresh(ks, p)
    decreases |ks|
  {
    if ks != [] {
      var init := ks[..|ks| - 1];
      var k := ks[|ks| - 1];
      assert ks == init + [k];
      assert Distinct(init);
      ExtendKeysOrder(p, src, init);
      ExtendKeysValues(p, src, init);
      assert k !in init;
    }
  }

  /**
   * `_.extend` is a shallow, top-level overwrite: the result maps every key of a
   * well-formed plain-object source to the source's value, wholesale, and every
   * other key to its old value; keys already present keep their positions.
   */
  lemma ExtendedValues(p: Props, src: Value)
    requires p.Wf()
    requires src.Obj? ==> src.props.Wf()
    ensures Extended(p, src).Wf()
    ensures Extended(p, src).vals == p.vals + OwnProps(src)
    ensures |p.keys| <= |Extended(p, src).keys|
    ensures Extended(p, src).keys[..|p.keys|] == p.keys
  {
    if src.Obj? {
      var q := src.props;
      ExtendKeysShape(p, q, q.keys);
      ExtendKeysValues(p, q, q.keys);
      var r := ExtendKeys(p, q, q.keys);
      var m := p.vals + q.vals;
      forall j ensures j in r.vals <==> j in m {}
      forall j | j in m ensures r.vals[j] == m[j] {
        assert Get(r, j) == r.vals[j];
        if j in q.vals {
          assert j in q.keys && m[j] == Get(q, j);
        } else {
          assert j !in q.keys && m[j] == Get(p, j);
        }
      }
      assert r.vals == m;
    }
  }

  /** `_.extend` appends the keys new to the object after the existing ones, in the source's order. */
  lemma ExtendedOrder(p: Props, src: Props)
    requires src.Wf()
    ensures Extended(p, Obj(src)).keys == p.keys + Fresh(src.keys, p)
  {
    ExtendKeysOrder(p, src, src.keys);
  }

  /** An object whose properties the program updates in place. */
  class JsObject {
    var props: Props

    ghost predicate Valid()
      reads this
    {
      props.Wf()
    }

    /** `{}` */
    constructor ()
      ensures Valid() && props == Empty
    {
      props := Empty;
    }

    /** `this[k] = v` */
    method Put(k: string, v: Value)
      requires Valid()
      modifies this
      ensures Valid()
      ensures props == Assign(old(props), k, v)
    {
      if k in props.vals {
        props := Props(props.keys, props.vals[k := v]);
      } else {
        props := Props(props.keys + [k], props.vals[k := v]);
      }
    }

    /** `_.extend(this, src)`: `for (key in src) this[key] = src[key]`. */
    method Extend(src: Value)
      requires Valid()
      modifies this
      ensures Valid()
      ensures props == Extended(old(props), src)
    {
      if src.Obj? {
        var q := src.props;
        ghost var p0 := props;
        var i := 0;
        while i < |q.keys|
          invariant 0 <= i <= |q.keys|
          invariant Valid()
          invariant props == ExtendKeys(p0, q, q.keys[..i])
        {
          var k := q.keys[i];
          ghost var done := q.keys[..i + 1];
          assert done[..i] == q.keys[..i] && done[i] == k;
          assert ExtendKeys(p0, q, done) == Assign(ExtendKeys(p0, q, q.keys[..i]), k, Get(q, k));
          Put(k, Get(q, k));
          i := i + 1;
        }
        assert q.keys[..|q.keys|] == q.keys;
      }
    }
  }

  /** Why a call of a loaded function did not return: it threw, or the callee is not a function (a TypeError). */
  datatype Cause = Thrown(exception: Value) | NotAFunction

  /**
   * How the host runs loaded JavaScript function number `id` on one argument:
   * a returned value, or the exception it threw.
   */
  type Interpreter = (nat, Value) -> Result<Value, Cause>

  /** `f(arg)`: a function value is run; calling anything else is a TypeError. */
  function Call(run: Interpreter, f: Value, arg: Value): Result<Value, Cause> {
    if f.Fn? then run(f.id, arg) else Failure(NotAFunction)
  }
}
