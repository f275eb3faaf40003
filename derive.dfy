/**
 * Derivation: every entry of the derivation object whose key the merged
 * configuration lacks is called, in the derivation object's insertion order,
 * on the configuration as updated so far, and its result is assigned under
 * its key; the first one that throws (or is not a function) aborts
 * resolution.
 */
module Derive {
  import opened Wrappers
  import opened JsObjects
  import opened Errors

  /** The keys of `ks` not named in `drop`, in order. */
  function Kept(ks: seq<string>, drop: seq<string>): (r: seq<string>)
    ensures forall k :: k in r <==> k in ks && k !in drop
    ensures Distinct(ks) ==> Distinct(r)
    ensures |r| <= |ks|
    decreases |ks|
  {
    if ks == [] then []
    else if ks[0] in drop then Kept(ks[1..], drop)
    else
      var rest := Kept(ks[1..], drop);
      assert Distinct(ks) ==> ks[0] !in ks[1..] && Distinct(ks[1..]) by {
        if Distinct(ks) {
          forall i, j | 0 <= i < j < |ks[1..]| ensures ks[1..][i] != ks[1..][j] {
            assert ks[1..][i] == ks[i + 1] && ks[1..][j] == ks[j + 1];
          }
        }
      }
      [ks[0]] + rest
  }

  /** Omission keeps the order of the keys it keeps: it distributes over concatenation. */
  lemma {:induction false} KeptAppend(a: seq<string>, b: seq<string>, drop: seq<string>)
    ensures Kept(a + b, drop) == Kept(a, drop) + Kept(b, drop)
    decreases |a|
  {
    if a == [] {
      assert a + b == b;
    } else {
      assert (a + b)[0] == a[0] && (a + b)[1..] == a[1..] + b;
      KeptAppend(a[1..], b, drop);
    }
  }

  /** `_.omit(obj, keys)`: a new object with the properties of `p` whose keys `drop` does not list. */
  function Omit(p: Props, drop: seq<string>): (r: Props)
    ensures p.Wf() ==> r.Wf()
    ensures forall k :: k in r.vals <==> k in p.vals && k !in drop
    ensures forall k | k in r.vals :: r.vals[k] == p.vals[k]
    ensures forall k :: k in r.keys <==> k in p.keys && k !in drop
  {
    Props(Kept(p.keys, drop), map k | k in p.vals && k !in drop :: p.vals[k])
  }

  /** The catch block of a derivation, corrected: the error carries the key whose derivation failed. */
  function DerivationCatch(key: string, cause: Cause): Error {
    DerivationError(key, cause)
  }

  /** The corrected catch block reports the failed key, and its message names it. */
  lemma DerivationCatchNamesKey(key: string, cause: Cause)
    ensures DerivationCatch(key, cause).DerivationError? && DerivationCatch(key, cause).key == key
    ensures Occurs(key, Message(DerivationCatch(key, cause)))
  {
    MessageNamesKeys(DerivationCatch(key, cause));
  }

  /**
   * The catch block of a derivation as written: building the new message
   * reads `err.message` and then evaluates `util.inspect`, with `util` never
   * required, so a TypeError (for a thrown `null` or `undefined`) or a
   * ReferenceError is thrown in place of the keyed error.
   */
  function DerivationCatchAsWritten(key: string, f: Value, cause: Cause): (e: Error)
    ensures e.UtilNotDefined? || e.MessageOfNullish?
  {
    CatchAsWritten(cause)
  }

  /**
   * As written, a failing derivation of a key such as `bar` (see
   * `StrayLetters`) surfaces an error that is no derivation error and does
   * not name the key.
   */
  lemma DerivationCatchAsWrittenOmitsKey(key: string, f: Value, cause: Cause)
    requires key != [] && !InStrayMessage(key[0])
    ensures !DerivationCatchAsWritten(key, f, cause).DerivationError?
    ensures !Occurs(key, Message(DerivationCatchAsWritten(key, f, cause)))
  {
    CatchAsWrittenOmits(key, cause);
  }

  /** The configuration a run of derivations leaves, and whether it completed. */
  datatype Run = Run(state: Props, outcome: Outcome<Error>)

  /**
   * Runs the derivations `fns` named by `ks`, in order, on `p`: each one is
   * called with the configuration as updated so far and its result assigned
   * under its key; the first one that throws stops the run.
   */
  function Derivations(p: Props, ks: seq<string>, fns: Props, run: Interpreter): (r: Run)
    ensures r.outcome.Fail? ==> r.outcome.error.DerivationError? && r.outcome.error.key in ks
    decreases |ks|
  {
    if ks == [] then Run(p, Pass)
    else
      match Call(run, Get(fns, ks[0]), Obj(p))
      case Failure(c) => Run(p, Fail(DerivationCatch(ks[0], c)))
      case Success(v) => Derivations(Assign(p, ks[0], v), ks[1..], fns, run)
  }

  /**
   * An entry of the derivation object that is not a function fails like one
   * that throws: calling it is a TypeError, and the run stops there with the
   * derivation error for its key and the configuration as it was.
   */
  lemma NonFunctionAborts(p: Props, ks: seq<string>, fns: Props, run: Interpreter)
    requires ks != [] && !Get(fns, ks[0]).Fn?
    ensures Derivations(p, ks, fns, run) == Run(p, Fail(DerivationError(ks[0], NotAFunction)))
  {
  }

  /** Running `a + b` is running `a`, then, if it completed, running `b` on its result. */
  lemma {:induction false} DerivationsAppend(p: Props, a: seq<string>, b: seq<string>, fns: Props, run: Interpreter)
    ensures Derivations(p, a + b, fns, run) ==
      var ra := Derivations(p, a, fns, run);
      if ra.outcome.Pass? then Derivations(ra.state, b, fns, run) else ra
    decreases |a|
  {
    if a == [] {
      assert a + b == b;
    } else {
      assert (a + b)[0] == a[0] && (a + b)[1..] == a[1..] + b;
      match Call(run, Get(fns, a[0]), Obj(p))
      case Failure(c) =>
      case Success(v) => DerivationsAppend(Assign(p, a[0], v), a[1..], b, fns, run);
    }
  }

  /** A derivation that returns hands its assignment on to the rest of the run. */
  lemma DerivationsCons(p: Props, k: string, rest: seq<string>, fns: Props, run: Interpreter, v: Value)
    requires Call(run, Get(fns, k), Obj(p)) == Success(v)
    ensures Derivations(p, [k] + rest, fns, run) == Derivations(Assign(p, k, v), rest, fns, run)
  {
    assert ([k] + rest)[0] == k && ([k] + rest)[1..] == rest;
  }

  /**
   * Derivation touches only the keys it runs: every other key keeps its
   * presence and value, existing keys keep their positions, and the
   * configuration stays well formed.
   */
  lemma {:induction false} DerivationsFrame(p: Props, ks: seq<string>, fns: Props, run: Interpreter)
    requires p.Wf()
    ensures Derivations(p, ks, fns, run).state.Wf()
    ensures forall k | k !in ks ::
      && (k in Derivations(p, ks, fns, run).state.vals <==> k in p.vals)
      && Get(Derivations(p, ks, fns, run).state, k) == Get(p, k)
    ensures forall k | k in Derivations(p, ks, fns, run).state.vals :: k in p.vals || k in ks
    ensures |p.keys| <= |Derivations(p, ks, fns, run).state.keys|
    ensures Derivations(p, ks, fns, run).state.keys[..|p.keys|] == p.keys
    decreases |ks|
  {
    if ks != [] {
      match Call(run, Get(fns, ks[0]), Obj(p))
      case Failure(c) =>
      case Success(v) =>
        var q := Assign(p, ks[0], v);
        DerivationsFrame(q, ks[1..], fns, run);
        var r := Derivations(p, ks, fns, run).state;
        assert r.keys[..|p.keys|] == r.keys[..|q.keys|][..|p.keys|];
    }
  }

  /** A key that no derivation of `ks` names keeps its presence and value. */
  lemma {:induction false} DerivationsKeep(p: Props, ks: seq<string>, fns: Props, run: Interpreter, k: string)
    requires k !in ks
    ensures k in Derivations(p, ks, fns, run).state.vals <==> k in p.vals
    ensures Get(Derivations(p, ks, fns, run).state, k) == Get(p, k)
    decreases |ks|
  {
    if ks != [] {
      match Call(run, Get(fns, ks[0]), Obj(p))
      case Failure(c) =>
      case Success(v) =>
        assert k != ks[0] && k !in ks[1..];
        DerivationsKeep(Assign(p, ks[0], v), ks[1..], fns, run, k);
    }
  }

  /** A completed run removes no key and leaves every derivation key present. */
  lemma {:induction false} DerivationsCover(p: Props, ks: seq<string>, fns: Props, run: Interpreter)
    requires Derivations(p, ks, fns, run).outcome.Pass?
    ensures forall k | k in p.vals :: k in Derivations(p, ks, fns, run).state.vals
    ensures forall k <- ks :: k in Derivations(p, ks, fns, run).state.vals
    decreases |ks|
  {
    if ks != [] {
      var call := Call(run, Get(fns, ks[0]), Obj(p));
      assert call.Success?;
      var q := Assign(p, ks[0], call.value);
      DerivationsCover(q, ks[1..], fns, run);
      assert forall k <- ks :: k == ks[0] || k in ks[1..];
    }
  }

  /** The first derivation of a completed run returned the value its key ends up holding. */
  lemma DerivationHead(p: Props, ks: seq<string>, fns: Props, run: Interpreter)
    requires ks != [] && ks[0] !in ks[1..]
    requires Derivations(p, ks, fns, run).outcome.Pass?
    ensures ks[0] in Derivations(p, ks, fns, run).state.vals
    ensures Call(run, Get(fns, ks[0]), Obj(p)) == Success(Get(Derivations(p, ks, fns, run).state, ks[0]))
  {
    var call := Call(run, Get(fns, ks[0]), Obj(p));
    assert call.Success?;
    var q := Assign(p, ks[0], call.value);
    DerivationsKeep(q, ks[1..], fns, run, ks[0]);
  }

  /** The `i`-th derivation of a completed run was called on the configuration the first `i` left. */
  lemma DerivationAt(p: Props, ks: seq<string>, fns: Props, run: Interpreter, i: nat)
    requires Distinct(ks) && i < |ks|
    requires Derivations(p, ks, fns, run).outcome.Pass?
    ensures Derivations(p, ks[..i], fns, run).outcome.Pass?
    ensures ks[i] in Derivations(p, ks, fns, run).state.vals
    ensures Call(run, Get(fns, ks[i]), Obj(Derivations(p, ks[..i], fns, run).state))
      == Success(Get(Derivations(p, ks, fns, run).state, ks[i]))
  {
    var pre := Derivations(p, ks[..i], fns, run);
    var rest := ks[i..];
    assert ks == ks[..i] + rest;
    DerivationsAppend(p, ks[..i], rest, fns, run);
    assert rest[0] == ks[i];
    assert rest[0] !in rest[1..] by {
      forall j | 0 <= j < |rest[1..]| ensures rest[1..][j] != ks[i] {
        assert rest[1..][j] == ks[i + 1 + j];
      }
    }
    DerivationHead(pre.state, rest, fns, run);
  }

  /**
   * After a completed run every derivation key is present, holding what its
   * function returned on the configuration as the earlier derivations left
   * it; so a later derivation observes the values of earlier ones.
   */
  lemma DerivationsSucceed(p: Props, ks: seq<string>, fns: Props, run: Interpreter)
    requires p.Wf() && Distinct(ks)
    requires Derivations(p, ks, fns, run).outcome.Pass?
    ensures forall i | 0 <= i < |ks| ::
      && Derivations(p, ks[..i], fns, run).outcome.Pass?
      && ks[i] in Derivations(p, ks, fns, run).state.vals
      && Call(run, Get(fns, ks[i]), Obj(Derivations(p, ks[..i], fns, run).state))
         == Success(Get(Derivations(p, ks, fns, run).state, ks[i]))
  {
    forall i | 0 <= i < |ks| ensures
      && Derivations(p, ks[..i], fns, run).outcome.Pass?
      && ks[i] in Derivations(p, ks, fns, run).state.vals
      && Call(run, Get(fns, ks[i]), Obj(Derivations(p, ks[..i], fns, run).state))
         == Success(Get(Derivations(p, ks, fns, run).state, ks[i]))
    {
      DerivationAt(p, ks, fns, run, i);
    }
  }

  /** The `i`-th derivation is the first to throw, and the run stops right there. */
  ghost predicate FailsAt(p: Props, ks: seq<string>, fns: Props, run: Interpreter, i: nat)
    requires i < |ks|
  {
    var pre := Derivations(p, ks[..i], fns, run);
    var call := Call(run, Get(fns, ks[i]), Obj(pre.state));
    && pre.outcome.Pass?
    && call.Failure?
    && Derivations(p, ks, fns, run) == Run(pre.state, Fail(DerivationError(ks[i], call.error)))
  }

  /** A failure point of the rest of a run, after a first derivation that returned, is one of the whole run. */
  lemma FailsAtCons(p: Props, ks: seq<string>, fns: Props, run: Interpreter, v: Value, i: nat)
    requires ks != [] && Call(run, Get(fns, ks[0]), Obj(p)) == Success(v)
    requires i < |ks| - 1 && FailsAt(Assign(p, ks[0], v), ks[1..], fns, run, i)
    ensures FailsAt(p, ks, fns, run, i + 1)
  {
    var q := Assign(p, ks[0], v);
    var tail := ks[1..];
    assert ks[..i + 1] == [ks[0]] + tail[..i];
    DerivationsCons(p, ks[0], tail[..i], fns, run, v);
    assert ks[i + 1] == tail[i];
    assert Derivations(p, ks, fns, run) == Derivations(q, tail, fns, run);
  }

  /**
   * A run that did not complete failed at one derivation, with an error
   * naming its key; no later derivation was applied.
   */
  lemma {:induction false} DerivationsFail(p: Props, ks: seq<string>, fns: Props, run: Interpreter)
    requires Derivations(p, ks, fns, run).outcome.Fail?
    ensures exists i | 0 <= i < |ks| :: FailsAt(p, ks, fns, run, i)
    decreases |ks|
  {
    assert ks[..0] == [];
    match Call(run, Get(fns, ks[0]), Obj(p))
    case Failure(c) =>
      assert FailsAt(p, ks, fns, run, 0);
    case Success(v) =>
      var q := Assign(p, ks[0], v);
      var tail := ks[1..];
      DerivationsFail(q, tail, fns, run);
      var i :| 0 <= i < |tail| && FailsAt(q, tail, fns, run, i);
      FailsAtCons(p, ks, fns, run, v, i);
  }

  /** One derivation, `config[key] = f(config)`: the object is left as it was when `f` throws. */
  method DeriveKey(config: JsObject, key: string, f: Value, run: Interpreter) returns (result: Result<Value, Cause>)
    requires config.Valid()
    modifies config
    ensures config.Valid()
    ensures result == Call(run, f, Obj(old(config.props)))
    ensures config.props == if result.Success? then Assign(old(config.props), key, result.value) else old(config.props)
  {
    result := Call(run, f, Obj(config.props));
    if result.Success? {
      config.Put(key, result.value);
    }
  }

  /**
   * The derivation step: runs the derivations of `pending` in insertion order on
   * `config`, in place.
   */
  method ApplyDerivations(config: JsObject, pending: Props, run: Interpreter) returns (outcome: Outcome<Error>)
    requires config.Valid()
    modifies config
    ensures config.Valid()
    ensures Run(config.props, outcome) == Derivations(old(config.props), pending.keys, pending, run)
  {
    outcome := Pass;
    var pairs := pending.keys;
    if pairs == [] {
      return;
    }
    ghost var whole := Derivations(config.props, pairs, pending, run);
    var i := 0;
    while i < |pairs|
      invariant 0 <= i <= |pairs|
      invariant config.Valid()
      invariant Derivations(config.props, pairs[i..], pending, run) == whole
    {
      var key := pairs[i];
      assert pairs[i..][0] == key && pairs[i..][1..] == pairs[i + 1..];
      var result := DeriveKey(config, key, Get(pending, key), run);
      if result.Failure? {
        outcome := Fail(DerivationCatch(key, result.error));
        return;
      }
      i := i + 1;
    }
    assert pairs[i..] == [];
  }

  /** Derivations whose keys the base configuration has are never run, so no base key changes. */
  lemma GapFillKeepsBase(base: Props, derived: Props, run: Interpreter)
    requires base.Wf()
    ensures var pending := Omit(derived, base.keys);
      var r := Derivations(base, pending.keys, pending, run);
      && r.state.Wf()
      && (forall k | k in base.vals :: k in r.state.vals && r.state.vals[k] == base.vals[k])
  {
    var pending := Omit(derived, base.keys);
    var r := Derivations(base, pending.keys, pending, run);
    forall k | k in base.vals ensures k in r.state.vals && r.state.vals[k] == base.vals[k] {
      assert k !in pending.keys;
      DerivationsKeep(base, pending.keys, pending, run, k);
    }
    DerivationsFrame(base, pending.keys, pending, run);
  }

  /** A completed run adds exactly the derivation keys the base configuration lacked. */
  lemma GapFillAdds(base: Props, derived: Props, run: Interpreter)
    requires base.Wf()
    requires derived.Wf()
    ensures var pending := Omit(derived, base.keys);
      var r := Derivations(base, pending.keys, pending, run);
      r.outcome.Pass? ==> forall k :: k in r.state.vals <==> k in base.vals || k in derived.vals
  {
    var pending := Omit(derived, base.keys);
    var r := Derivations(base, pending.keys, pending, run);
    if r.outcome.Pass? {
      DerivationsFrame(base, pending.keys, pending, run);
      DerivationsCover(base, pending.keys, pending, run);
      forall k | k in derived.vals && k !in base.vals ensures k in pending.keys {}
    }
  }

  /**
   * Gap filling: with the derivations of keys the base configuration
   * already has omitted, no base key changes, whether or not a derivation
   * for it exists; a completed run adds exactly the remaining derivation keys.
   */
  lemma GapFill(base: Props, derived: Props, run: Interpreter)
    requires base.Wf()
    requires derived.Wf()
    ensures var pending := Omit(derived, base.keys);
      var r := Derivations(base, pending.keys, pending, run);
      && r.state.Wf()
      && (forall k | k in base.vals :: k in r.state.vals && r.state.vals[k] == base.vals[k])
      && (r.outcome.Pass? ==>
            forall k :: k in r.state.vals <==> k in base.vals || k in derived.vals)
  {
    GapFillKeepsBase(base, derived, run);
    GapFillAdds(base, derived, run);
  }
}
