/**
 * Verification: every function-valued key of the merged verification object
 * must be present in the configuration (all missing keys are reported
 * together, before any predicate runs); then every predicate runs on its
 * key's value, falsy results are reported together, and a predicate that
 * throws aborts at once.
 */
module Verification {
  import opened Wrappers
  import opened JsObjects
  import opened Errors
  import opened KeyOrder

  /** The keys of `ks` whose value in `p` is a function, in order. */
  function FunctionValued(ks: seq<string>, p: Props): (r: seq<string>)
    ensures forall k :: k in r <==> k in ks && Get(p, k).Fn?
    ensures Distinct(ks) ==> Distinct(r)
    decreases |ks|
  {
    if ks == [] then []
    else
      var rest := FunctionValued(ks[1..], p);
      assert Distinct(ks) && Get(p, ks[0]).Fn? ==> Distinct([ks[0]] + rest) by {
        if Distinct(ks) && Get(p, ks[0]).Fn? {
          DistinctTail(ks);
          DistinctCons(ks[0], rest);
        }
      }
      assert Distinct(ks) ==> Distinct(ks[1..]) by {
        if Distinct(ks) { DistinctTail(ks); }
      }
      if Get(p, ks[0]).Fn? then [ks[0]] + rest else rest
  }

  /**
   * `_.functions(obj)`: the keys of obj's function-valued properties,
   * sorted. (The `.filter(_.partial(_.has, verify_object))` applied to it
   * keeps every one of them, since all are own keys.)
   */
  function Functions(p: Props): (r: seq<string>)
    ensures Sorted(r)
    ensures forall k :: k in r <==> k in p.keys && Get(p, k).Fn?
    ensures p.Wf() ==> Distinct(r)
  {
    var fs := FunctionValued(p.keys, p);
    var r := Sort(fs);
    assert p.Wf() ==> Distinct(r) by {
      if p.Wf() { DistinctPermutation(fs, r); }
    }
    assert forall k :: k in r <==> k in fs by {
      forall k ensures k in r <==> k in fs {
        assert k in r <==> k in multiset(r);
        assert k in fs <==> k in multiset(fs);
      }
    }
    r
  }

  /** `_.reject(keys, _.partial(_.has, config))`: the keys `cfg` has no own property for, in order. */
  function Absent(ks: seq<string>, cfg: Props): (r: seq<string>)
    ensures forall k :: k in r <==> k in ks && k !in cfg.vals
    ensures Sorted(ks) ==> Sorted(r)
    ensures Distinct(ks) ==> Distinct(r)
    decreases |ks|
  {
    if ks == [] then []
    else
      var rest := Absent(ks[1..], cfg);
      assert Distinct(ks) ==> Distinct(ks[1..]) by {
        if Distinct(ks) { DistinctTail(ks); }
      }
      assert Distinct(ks) && ks[0] !in cfg.vals ==> Distinct([ks[0]] + rest) by {
        if Distinct(ks) && ks[0] !in cfg.vals {
          DistinctTail(ks);
          DistinctCons(ks[0], rest);
        }
      }
      assert Sorted(ks) ==> Sorted(ks[1..]) && forall k <- rest :: Below(ks[0], k) by {
        if Sorted(ks) {
          SortedTail(ks);
          assert forall k <- rest :: k in ks[1..];
        }
      }
      if ks[0] in cfg.vals then rest else [ks[0]] + rest
  }

  /** `verify_object[key](config_object[key])` */
  function Test(run: Interpreter, ver: Props, cfg: Props, k: string): Result<Value, Cause> {
    Call(run, Get(ver, k), Get(cfg, k))
  }

  /** The catch block of a predicate, corrected: the error carries the key whose predicate threw. */
  function PredicateCatch(key: string, cause: Cause): Error {
    PredicateError(key, cause)
  }

  /** The corrected catch block reports the throwing key, and its message names it. */
  lemma PredicateCatchNamesKey(key: string, cause: Cause)
    ensures PredicateCatch(key, cause).PredicateError? && PredicateCatch(key, cause).key == key
    ensures Occurs(key, Message(PredicateCatch(key, cause)))
  {
    MessageNamesKeys(PredicateCatch(key, cause));
  }

  /**
   * The catch block of a predicate as written: like the derivation's, it
   * reads `err.message` and evaluates `util.inspect` with `util` never
   * required, so a TypeError or a ReferenceError is thrown in place of the
   * keyed error.
   */
  function PredicateCatchAsWritten(key: string, f: Value, cause: Cause): (e: Error)
    ensures e.UtilNotDefined? || e.MessageOfNullish?
  {
    CatchAsWritten(cause)
  }

  /**
   * As written, a throwing predicate for a key such as `quux` (see
   * `StrayLetters`) surfaces an error that is no predicate error and does
   * not name the key.
   */
  lemma PredicateCatchAsWrittenOmitsKey(key: string, f: Value, cause: Cause)
    requires key != [] && !InStrayMessage(key[0])
    ensures !PredicateCatchAsWritten(key, f, cause).PredicateError?
    ensures !Occurs(key, Message(PredicateCatchAsWritten(key, f, cause)))
  {
    CatchAsWrittenOmits(key, cause);
  }

  /**
   * `_.reject(keys, key => verify_object[key](config_object[key]))`: the
   * keys whose predicate returned a falsy value, in order; a predicate that
   * throws aborts the whole rejection with an error for its key.
   */
  function Rejected(ks: seq<string>, ver: Props, cfg: Props, run: Interpreter): (r: Result<seq<string>, Error>)
    ensures r.Failure? ==> r.error.PredicateError? && r.error.key in ks
    decreases |ks|
  {
    if ks == [] then Success([])
    else
      match Test(run, ver, cfg, ks[0])
      case Failure(c) => Failure(PredicateCatch(ks[0], c))
      case Success(v) =>
        match Rejected(ks[1..], ver, cfg, run)
        case Failure(e) => Failure(e)
        case Success(rest) => Success(if Truthy(v) then rest else [ks[0]] + rest)
  }

  /** Rejection completes exactly when no predicate throws. */
  lemma {:induction false} RejectedCompletes(ks: seq<string>, ver: Props, cfg: Props, run: Interpreter)
    ensures Rejected(ks, ver, cfg, run).Success? <==> forall k <- ks :: Test(run, ver, cfg, k).Success?
    decreases |ks|
  {
    if ks != [] {
      var tail := ks[1..];
      RejectedCompletes(tail, ver, cfg, run);
      assert forall k <- ks :: k == ks[0] || k in tail;
      assert Rejected(ks, ver, cfg, run).Success? <==>
        Test(run, ver, cfg, ks[0]).Success? && Rejected(tail, ver, cfg, run).Success?;
    }
  }

  /** A completed rejection reports exactly the keys whose predicate returned a falsy value. */
  lemma {:induction false} RejectedKeys(ks: seq<string>, ver: Props, cfg: Props, run: Interpreter)
    requires Rejected(ks, ver, cfg, run).Success?
    ensures forall k <- ks :: Test(run, ver, cfg, k).Success?
    ensures forall k :: k in Rejected(ks, ver, cfg, run).value <==> k in ks && !Truthy(Test(run, ver, cfg, k).value)
    decreases |ks|
  {
    RejectedCompletes(ks, ver, cfg, run);
    if ks != [] {
      RejectedKeys(ks[1..], ver, cfg, run);
      assert ks == [ks[0]] + ks[1..];
    }
  }

  /** A completed rejection keeps the order of `ks`: sorted keys give a sorted report. */
  lemma {:induction false} RejectedSorted(ks: seq<string>, ver: Props, cfg: Props, run: Interpreter)
    requires Rejected(ks, ver, cfg, run).Success? && Sorted(ks)
    ensures Sorted(Rejected(ks, ver, cfg, run).value)
    decreases |ks|
  {
    if ks != [] {
      var tail := ks[1..];
      assert Sorted(tail) by {
        assert forall i, j | 0 <= i < j < |tail| :: tail[i] == ks[i + 1] && tail[j] == ks[j + 1];
      }
      RejectedSorted(tail, ver, cfg, run);
      RejectedKeys(tail, ver, cfg, run);
      var rest := Rejected(tail, ver, cfg, run).value;
      forall k <- rest ensures Below(ks[0], k) {
        var i :| 0 <= i < |tail| && tail[i] == k;
        assert ks[i + 1] == k;
      }
    }
  }

  /** A completed rejection of distinct keys reports each key at most once. */
  lemma {:induction false} RejectedDistinct(ks: seq<string>, ver: Props, cfg: Props, run: Interpreter)
    requires Rejected(ks, ver, cfg, run).Success? && Distinct(ks)
    ensures Distinct(Rejected(ks, ver, cfg, run).value)
    decreases |ks|
  {
    if ks != [] {
      var tail := ks[1..];
      DistinctTail(ks);
      RejectedDistinct(tail, ver, cfg, run);
      RejectedKeys(tail, ver, cfg, run);
      var rest := Rejected(tail, ver, cfg, run).value;
      if !Truthy(Test(run, ver, cfg, ks[0]).value) {
        DistinctCons(ks[0], rest);
      }
    }
  }

  /**
   * Rejection completes exactly when no predicate throws, and then it
   * reports exactly the keys whose predicate returned a falsy value, in
   * the order of `ks`.
   */
  lemma RejectedSucceeds(ks: seq<string>, ver: Props, cfg: Props, run: Interpreter)
    ensures Rejected(ks, ver, cfg, run).Success? <==> forall k <- ks :: Test(run, ver, cfg, k).Success?
    ensures Rejected(ks, ver, cfg, run).Success? ==>
      forall k :: k in Rejected(ks, ver, cfg, run).value <==> k in ks && !Truthy(Test(run, ver, cfg, k).value)
    ensures Rejected(ks, ver, cfg, run).Success? && Sorted(ks) ==> Sorted(Rejected(ks, ver, cfg, run).value)
  {
    RejectedCompletes(ks, ver, cfg, run);
    if Rejected(ks, ver, cfg, run).Success? {
      RejectedKeys(ks, ver, cfg, run);
      if Sorted(ks) {
        RejectedSorted(ks, ver, cfg, run);
      }
    }
  }

  /** The predicate of key `ks[i]` is the first to throw; the error names that key. */
  ghost predicate ThrowsAt(ks: seq<string>, ver: Props, cfg: Props, run: Interpreter, i: nat)
    requires i < |ks|
  {
    && (forall j | 0 <= j < i :: Test(run, ver, cfg, ks[j]).Success?)
    && Test(run, ver, cfg, ks[i]).Failure?
    && Rejected(ks, ver, cfg, run) == Failure(PredicateError(ks[i], Test(run, ver, cfg, ks[i]).error))
  }

  /** A rejection that does not complete was aborted by the first throwing predicate. */
  lemma {:induction false} RejectedFails(ks: seq<string>, ver: Props, cfg: Props, run: Interpreter)
    requires Rejected(ks, ver, cfg, run).Failure?
    ensures exists i | 0 <= i < |ks| :: ThrowsAt(ks, ver, cfg, run, i)
    decreases |ks|
  {
    if Test(run, ver, cfg, ks[0]).Failure? {
      assert ThrowsAt(ks, ver, cfg, run, 0);
    } else {
      RejectedFails(ks[1..], ver, cfg, run);
      var i :| 0 <= i < |ks[1..]| && ThrowsAt(ks[1..], ver, cfg, run, i);
      assert forall j | 0 < j <= i :: ks[j] == ks[1..][j - 1];
      assert ThrowsAt(ks, ver, cfg, run, i + 1);
    }
  }

  /** The verification step: the missing-key check, then the predicates. */
  function Verify(cfg: Props, ver: Props, run: Interpreter): (r: Outcome<Error>)
    ensures r.Fail? ==> r.error.MissingKeys? || r.error.PredicateError? || r.error.FailedVerification?
  {
    if ver.keys == [] then Pass
    else
      var missing := Absent(Functions(ver), cfg);
      if missing != [] then Fail(MissingKeys(missing))
      else
        match Rejected(Functions(ver), ver, cfg, run)
        case Failure(e) => Fail(e)
        case Success(failures) => if failures == [] then Pass else Fail(FailedVerification(failures))
  }

  /**
   * Missing keys block the predicates: when some verification key is
   * absent (a key holding a falsy value is present), verification fails
   * listing exactly the absent keys, in sorted order and each once, whatever
   * the predicates would do.
   */
  lemma MissingKeysBlockPredicates(cfg: Props, ver: Props, run: Interpreter, k: string)
    requires k in ver.keys && Get(ver, k).Fn? && k !in cfg.vals
    ensures Verify(cfg, ver, run).Fail? && Verify(cfg, ver, run).error.MissingKeys?
    ensures var missing := Verify(cfg, ver, run).error.keys;
      && Sorted(missing)
      && (ver.Wf() ==> Distinct(missing))
      && (forall j :: j in missing <==> j in ver.keys && Get(ver, j).Fn? && j !in cfg.vals)
      && (forall run' :: Verify(cfg, ver, run') == Verify(cfg, ver, run))
  {
    assert k in Absent(Functions(ver), cfg);
  }

  /**
   * Verification passes exactly when every verification key is present and
   * its predicate returns a truthy value; in particular an object with no
   * function-valued key performs no check.
   */
  lemma VerifyPasses(cfg: Props, ver: Props, run: Interpreter)
    ensures Verify(cfg, ver, run) == Pass <==>
      forall k <- Functions(ver) ::
        k in cfg.vals && Test(run, ver, cfg, k).Success? && Truthy(Test(run, ver, cfg, k).value)
  {
    var fs := Functions(ver);
    RejectedSucceeds(fs, ver, cfg, run);
    if ver.keys == [] {
      assert forall k :: k !in fs;
    } else if Absent(fs, cfg) == [] && Rejected(fs, ver, cfg, run).Success? {
      var failures := Rejected(fs, ver, cfg, run).value;
      if failures != [] {
        assert failures[0] in failures;
      }
    } else if Absent(fs, cfg) != [] {
      assert Absent(fs, cfg)[0] in Absent(fs, cfg);
    }
  }

  /**
   * Falsy results are aggregated: a `FailedVerification` error lists, in
   * sorted order and each once, exactly the present keys whose predicate
   * returned a falsy value, and every predicate ran without throwing.
   */
  lemma FailuresAggregated(cfg: Props, ver: Props, run: Interpreter)
    requires Verify(cfg, ver, run).Fail? && Verify(cfg, ver, run).error.FailedVerification?
    ensures var failures := Verify(cfg, ver, run).error.keys;
      && failures != []
      && Sorted(failures)
      && (ver.Wf() ==> Distinct(failures))
      && (forall k <- Functions(ver) :: k in cfg.vals && Test(run, ver, cfg, k).Success?)
      && (forall k :: k in failures <==> k in Functions(ver) && !Truthy(Test(run, ver, cfg, k).value))
  {
    var fs := Functions(ver);
    RejectedSucceeds(fs, ver, cfg, run);
    assert Absent(fs, cfg) == [];
    assert Rejected(fs, ver, cfg, run).Success?;
    assert Verify(cfg, ver, run).error.keys == Rejected(fs, ver, cfg, run).value;
    if ver.Wf() {
      RejectedDistinct(fs, ver, cfg, run);
    }
  }

  /**
   * A throwing predicate aborts verification at once: all keys are present,
   * every earlier predicate (in sorted key order) returned, and the error
   * names the key whose predicate threw.
   */
  lemma ThrowingPredicateAborts(cfg: Props, ver: Props, run: Interpreter)
    requires Verify(cfg, ver, run).Fail? && Verify(cfg, ver, run).error.PredicateError?
    ensures forall k <- Functions(ver) :: k in cfg.vals
    ensures exists i | 0 <= i < |Functions(ver)| :: ThrowsAt(Functions(ver), ver, cfg, run, i)
  {
    var fs := Functions(ver);
    RejectedFails(fs, ver, cfg, run);
    assert Absent(fs, cfg) == [];
  }

  /**
   * Conversely, a missing-keys error arises only when some function-valued
   * verification key is absent from the configuration.
   */
  lemma MissingKeysOnlyWhenAbsent(cfg: Props, ver: Props, run: Interpreter)
    requires Verify(cfg, ver, run).Fail? && Verify(cfg, ver, run).error.MissingKeys?
    ensures exists k :: k in ver.keys && Get(ver, k).Fn? && k !in cfg.vals
  {
    var missing := Absent(Functions(ver), cfg);
    assert missing[0] in missing;
  }

  /** When the predicate of `ks[i]` is the first to throw, rejection aborts with its key's error. */
  lemma {:induction false} RejectedThrowsFirst(ks: seq<string>, ver: Props, cfg: Props, run: Interpreter, i: nat)
    requires i < |ks|
    requires forall j | 0 <= j < i :: Test(run, ver, cfg, ks[j]).Success?
    requires Test(run, ver, cfg, ks[i]).Failure?
    ensures Rejected(ks, ver, cfg, run) == Failure(PredicateError(ks[i], Test(run, ver, cfg, ks[i]).error))
    decreases i
  {
    if i > 0 {
      var tail := ks[1..];
      assert Test(run, ver, cfg, ks[0]).Success?;
      assert forall j | 0 <= j < i - 1 :: tail[j] == ks[j + 1];
      assert tail[i - 1] == ks[i];
      RejectedThrowsFirst(tail, ver, cfg, run, i - 1);
    }
  }

  /** A non-empty list has a member. */
  lemma HeadListed(s: seq<string>)
    ensures s != [] ==> s[0] in s
  {
  }

  /** Every function-valued verification key is present in the configuration. */
  ghost predicate AllPresent(cfg: Props, ver: Props) {
    forall k <- Functions(ver) :: k in cfg.vals
  }

  /** With every key present, the missing-key check passes and the predicates decide. */
  lemma PresentReachesPredicates(cfg: Props, ver: Props, run: Interpreter)
    requires AllPresent(cfg, ver) && Functions(ver) != []
    ensures Verify(cfg, ver, run) ==
      match Rejected(Functions(ver), ver, cfg, run)
      case Failure(e) => Fail(e)
      case Success(failures) => if failures == [] then Pass else Fail(FailedVerification(failures))
  {
    var fs := Functions(ver);
    assert fs[0] in ver.keys;
    HeadListed(Absent(fs, cfg));
  }

  /**
   * With every key present, the first predicate (in sorted key order) that
   * throws aborts verification with the predicate error for its key.
   */
  lemma PresentThrowingAborts(cfg: Props, ver: Props, run: Interpreter, i: nat)
    requires AllPresent(cfg, ver) && i < |Functions(ver)|
    requires forall j | 0 <= j < i :: Test(run, ver, cfg, Functions(ver)[j]).Success?
    requires Test(run, ver, cfg, Functions(ver)[i]).Failure?
    ensures Verify(cfg, ver, run) ==
      Fail(PredicateError(Functions(ver)[i], Test(run, ver, cfg, Functions(ver)[i]).error))
  {
    PresentReachesPredicates(cfg, ver, run);
    RejectedThrowsFirst(Functions(ver), ver, cfg, run, i);
  }

  /**
   * With every key present and no predicate throwing, a predicate that
   * returns a falsy value makes verification fail with the aggregated error.
   */
  lemma PresentFalsyFails(cfg: Props, ver: Props, run: Interpreter, k: string)
    requires AllPresent(cfg, ver)
    requires forall j <- Functions(ver) :: Test(run, ver, cfg, j).Success?
    requires k in Functions(ver) && !Truthy(Test(run, ver, cfg, k).value)
    ensures Verify(cfg, ver, run).Fail? && Verify(cfg, ver, run).error.FailedVerification?
  {
    var fs := Functions(ver);
    PresentReachesPredicates(cfg, ver, run);
    RejectedCompletes(fs, ver, cfg, run);
    RejectedKeys(fs, ver, cfg, run);
    assert k in Rejected(fs, ver, cfg, run).value;
  }
}
