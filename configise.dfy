/**
 * Configuration resolution, run once at start-up: merge the base
 * configuration, fill its gaps by derivation, then verify it.
 */
module Configise {
  import opened Wrappers
  import opened JsObjects
  import opened Errors
  import opened Names
  import opened Merge
  import opened Derive
  import opened Verification

  /** `config_dir + "/derived"`: a sub-directory of the configuration directory. */
  function DerivedDir(root: string): (dir: string)
    ensures |dir| > |root| && dir[..|root|] == root && dir[|root|] == '/'
  {
    root + "/derived"
  }

  /** `config_dir + "/verify"`: a sub-directory of the configuration directory. */
  function VerifyDir(root: string): (dir: string)
    ensures |dir| > |root| && dir[..|root|] == root && dir[|root|] == '/'
  {
    root + "/verify"
  }

  /**
   * The three loads read three different directories, so no file is shared
   * between the configuration, the derivations and the verification.
   */
  lemma DirectoriesDistinct(root: string)
    ensures DerivedDir(root) != root && VerifyDir(root) != root
    ensures DerivedDir(root) != VerifyDir(root)
  {
    assert DerivedDir(root)[|root| + 1] == 'd';
    assert VerifyDir(root)[|root| + 1] == 'v';
  }

  /** The fragments found in `dir` for the candidate files `e` selects, in precedence order. */
  function Fragments(e: Env, dir: string, source: Source): seq<Value> {
    Loaded(source, dir, FileNames(Candidates(e)))
  }

  /** The base configuration: every fragment of the configuration directory merged onto `{}`. */
  function BaseConfig(e: Env, root: string, source: Source): Props {
    Merged(Empty, Fragments(e, root, source))
  }

  /** The merged derivation object. */
  function DerivationMap(e: Env, root: string, source: Source): Props {
    Merged(Empty, Fragments(e, DerivedDir(root), source))
  }

  /** The derivations left once those of keys the base configuration has are omitted. */
  function Pending(e: Env, root: string, source: Source): Props {
    Omit(DerivationMap(e, root, source), BaseConfig(e, root, source).keys)
  }

  /** The run of the pending derivations on the base configuration. */
  function Derivation(e: Env, root: string, source: Source, run: Interpreter): Run {
    Derivations(BaseConfig(e, root, source), Pending(e, root, source).keys, Pending(e, root, source), run)
  }

  /** The merged verification object. */
  function VerificationMap(e: Env, root: string, source: Source): Props {
    Merged(Empty, Fragments(e, VerifyDir(root), source))
  }

  /** What resolution yields: the final configuration, or the error that aborts start-up. */
  function Resolution(e: Env, root: string, source: Source, run: Interpreter): (r: Result<Props, Error>)
    ensures r.Failure? ==> r.error.DerivationError? || r.error.MissingKeys? || r.error.PredicateError? || r.error.FailedVerification?
  {
    var d := Derivation(e, root, source, run);
    if d.outcome.Fail? then Failure(d.outcome.error)
    else
      match Verify(d.state, VerificationMap(e, root, source), run)
      case Fail(err) => Failure(err)
      case Pass => Success(d.state)
  }

  /**
   * Resolves the configuration for environment `e`, configuration
   * directory `root`, module loader `source` and function runner `run`.
   */
  method Resolve(e: Env, root: string, source: Source, run: Interpreter) returns (res: Result<Props, Error>)
    ensures res == Resolution(e, root, source, run)
  {
    var names := CandidateNames(e);
    var files := FileNames(names);
    var config := new JsObject();
    config := LoadObject(config, root, files, source);
    var derived := new JsObject();
    derived := LoadObject(derived, DerivedDir(root), files, source);
    var pending := Omit(derived.props, config.props.keys);
    var outcome := ApplyDerivations(config, pending, run);
    if outcome.Fail? {
      return Failure(outcome.error);
    }
    var verify := new JsObject();
    verify := LoadObject(verify, VerifyDir(root), files, source);
    var verdict := Verify(config.props, verify.props, run);
    if verdict.Fail? {
      return Failure(verdict.error);
    }
    res := Success(config.props);
  }

  /** The merged configuration and derivation objects are well formed when every fragment object is. */
  lemma MapsWellFormed(e: Env, root: string, source: Source)
    requires WellFormedFragments(Fragments(e, root, source))
    requires WellFormedFragments(Fragments(e, DerivedDir(root), source))
    ensures BaseConfig(e, root, source).Wf()
    ensures DerivationMap(e, root, source).Wf()
  {
    Precedence(Empty, Fragments(e, root, source));
    Precedence(Empty, Fragments(e, DerivedDir(root), source));
  }

  /**
   * The merged verification object is well formed when its fragment
   * objects are, so its missing and failed keys are reported each once.
   */
  lemma VerificationMapWellFormed(e: Env, root: string, source: Source)
    requires WellFormedFragments(Fragments(e, VerifyDir(root), source))
    ensures VerificationMap(e, root, source).Wf()
  {
    Precedence(Empty, Fragments(e, VerifyDir(root), source));
  }

  /**
   * After successful resolution every verification key is present and its
   * predicate holds of its value.
   */
  lemma ResolvedIsVerified(e: Env, root: string, source: Source, run: Interpreter)
    requires Resolution(e, root, source, run).Success?
    ensures var cfg := Resolution(e, root, source, run).value;
      var ver := VerificationMap(e, root, source);
      forall k <- Functions(ver) ::
        k in cfg.vals && Test(run, ver, cfg, k).Success? && Truthy(Test(run, ver, cfg, k).value)
  {
    VerifyPasses(Derivation(e, root, source, run).state, VerificationMap(e, root, source), run);
  }

  /**
   * Precedence end to end: a key some configuration fragment defines ends
   * with the value of the last such fragment, whatever the derivations.
   */
  lemma ResolvedPrecedence(e: Env, root: string, source: Source, run: Interpreter, k: string, v: Value)
    requires WellFormedFragments(Fragments(e, root, source))
    requires WellFormedFragments(Fragments(e, DerivedDir(root), source))
    requires Resolution(e, root, source, run).Success?
    requires LastDefining(Fragments(e, root, source), k) == Some(v)
    ensures k in Resolution(e, root, source, run).value.vals
    ensures Resolution(e, root, source, run).value.vals[k] == v
  {
    var base := BaseConfig(e, root, source);
    Precedence(Empty, Fragments(e, root, source));
    MapsWellFormed(e, root, source);
    GapFill(base, DerivationMap(e, root, source), run);
    assert Get(base, k) == v;
  }

  /**
   * Derivation only fills gaps: every base key keeps its base value, the
   * configuration gains exactly the keys of the derivation object, and
   * each derived key holds what its function returned on the configuration
   * the earlier derivations left.
   */
  lemma ResolvedFillsGaps(e: Env, root: string, source: Source, run: Interpreter)
    requires WellFormedFragments(Fragments(e, root, source))
    requires WellFormedFragments(Fragments(e, DerivedDir(root), source))
    requires Resolution(e, root, source, run).Success?
    ensures var cfg := Resolution(e, root, source, run).value;
      var base := BaseConfig(e, root, source);
      var pending := Pending(e, root, source);
      && (forall k | k in base.vals :: k in cfg.vals && cfg.vals[k] == base.vals[k])
      && (forall k :: k in cfg.vals <==> k in base.vals || k in DerivationMap(e, root, source).vals)
      && (forall i | 0 <= i < |pending.keys| ::
            Call(run, Get(pending, pending.keys[i]), Obj(Derivations(base, pending.keys[..i], pending, run).state))
            == Success(Get(cfg, pending.keys[i])))
  {
    var base := BaseConfig(e, root, source);
    var pending := Pending(e, root, source);
    MapsWellFormed(e, root, source);
    GapFill(base, DerivationMap(e, root, source), run);
    DerivationsSucceed(base, pending.keys, pending, run);
  }

  /**
   * A failing derivation aborts resolution with an error naming its key,
   * after the derivations before it and none after it.
   */
  lemma DerivationFailureAborts(e: Env, root: string, source: Source, run: Interpreter)
    requires Derivation(e, root, source, run).outcome.Fail?
    ensures Resolution(e, root, source, run).Failure?
    ensures Resolution(e, root, source, run).error.DerivationError?
    ensures var pending := Pending(e, root, source);
      exists i | 0 <= i < |pending.keys| :: FailsAt(BaseConfig(e, root, source), pending.keys, pending, run, i)
  {
    var pending := Pending(e, root, source);
    DerivationsFail(BaseConfig(e, root, source), pending.keys, pending, run);
  }
}
