# configise in Dafny

configise resolves an application's configuration once, at start-up, in
three stages.

1. **Merge.** It builds a list of candidate file names from the `ENV`,
   `NODE_ENV` and `USER` environment variables. The list always starts with
   `default`, then each given variable, then `user.env` and
   `user.node_env`, all lowercased with `.js` appended. It loads each
   candidate from the configuration directory and shallow-merges the
   fragments it finds into one object. Later candidates win.
2. **Derive.** It merges the `derived` sub-directory the same way. Every
   entry found there whose key the configuration still lacks is called, in
   the derivation object's insertion order, on the configuration as
   updated so far. Its result is assigned under its key. An entry that is
   not a function fails like a derivation that throws (a TypeError).
3. **Verify.** It merges the `verify` sub-directory. Every function-valued
   key there must be present in the configuration; all missing keys are
   reported together and no predicate runs. Then each predicate is called
   on its key's value. Falsy results are reported together. A predicate
   that throws aborts at once.

The model has one module per part of `lib/configise.js`:

- `Wrappers`: `Option`, `Result` and `Outcome`.
- `JsObjects`: JavaScript values and plain objects.
  - An object is its own keys, in insertion order, plus their values.
  - `JsObject` is a class whose methods update it in place: property
    assignment, and underscore's `_.extend`, as a loop over the source's
    keys.
  - Calls of loaded functions go through an `Interpreter` parameter.
- `Names`: the candidate list, built by pushes as in the source, and its
  file names.
- `Merge`: `load_object`, as a method merging onto a `JsObject` in place,
  specified by a left fold (`Merged`).
- `KeyOrder`: the string order in which `_.functions` sorts keys.
- `Errors`: the errors that abort start-up, and their messages.
- `Derive`: `_.omit`, and the derivation loop as a method. The loop is
  specified by the function `Derivations`, which returns the final object
  and whether the run completed.
- `Verification`: the missing-key check and the predicate check.
- `Configise`: the whole resolution.
  - `Resolve` is a method that runs the stages on `JsObject`s.
  - `Resolution` is the function it is proved equal to.
- `Scenarios`: the behaviours the project's test suite checks, as lemmas.

The environment, the configuration directory, the module loader
(`optional`) and the execution of loaded functions are parameters:

- the environment is an `Env`;
- the configuration directory is `root`;
- the module loader is a `Source`, from a directory and a file name to the
  module's exports, or `None`;
- loaded functions are `Fn(id)` values, run by an `Interpreter` that
  returns a value or the exception thrown.

In these respects the model follows the code as written:

- An environment variable set to the empty string is treated as unset
  (`if (env)` tests truthiness).
- A loaded fragment that is falsy is skipped (`filter(_.identity)`).
- Verification considers only the function-valued keys of the
  verification object (`_.functions`). It checks those keys in sorted
  order, not in merge order, and reports missing and failed keys sorted.
  Other entries of the verification object are ignored.
- The catch blocks refer to `util`, which is never required. As written,
  a failing derivation or predicate therefore surfaces a ReferenceError
  that does not name the key (see Findings). When the thrown value is
  `null` or `undefined`, reading its `message` fails first, with a
  TypeError. The rest of the model uses
  the corrected catch blocks, which raise errors carrying the key, as the
  messages built at lines 81 and 105 intend.

## Model

| member | source | states |
|---|---|---|
| Names.CandidateNames | lib/configise.js:31-37 | The pushed list equals `Candidates(e)`. It has `1 + Overrides(e)` entries and starts with `default`. |
| Names.Candidates | lib/configise.js:31-37 | The list has one entry per given variable and per given user/variable pair, plus `default` first. |
| Names.Given | lib/configise.js:33-37 | `if (x)` on a variable: it selects its candidate only when set and not empty; there is no contract, the behaviour is fixed by `Candidates` and `CandidateFiles`. |
| Names.LowerChar | lib/configise.js:40 | The result is never an upper-case ASCII letter; any other character is unchanged. |
| Names.Lower | lib/configise.js:40 | `toLowerCase` keeps the length and lowercases each character in place. |
| Names.LowerIdempotent | lib/configise.js:40 | Lowercasing twice is lowercasing once, and the result has no upper-case letter. |
| Names.FileName | lib/configise.js:40 | The file name is the name, lowercased character by character, followed by `.js`, and contains no upper-case letter. |
| Names.FileNames | lib/configise.js:40 | There is one file per name, in order. Each is the lowercased name followed by `.js` and contains no upper-case letter. |
| Names.CandidateFiles | lib/configise.js:31-40 | The position of each candidate's file in the formatted list, for every combination of given and absent variables. Precedence order is `default < env < node_env < user < user.env < user.node_env`. |
| JsObjects.Truthy | lib/configise.js:45 | JavaScript's ToBoolean: `undefined`, `null`, `false`, `0` and `""` are falsy, everything else truthy. There is no contract; `Merge.Loaded` and `Merge.LoadedMembers` state what `filter(_.identity)` keeps. |
| JsObjects.Get | lib/configise.js:79 | `obj[key]` (also line 103): an own key's value, `undefined` for any other key. There is no contract; `ExtendKeysValues`, `Precedence` and the `Derive` lemmas state results through it. |
| JsObjects.OwnProps | lib/configise.js:47 | The properties `_.extend` copies from a source: a plain object's own properties, none otherwise. There is no contract; `ExtendedValues` states the overwrite through it. |
| JsObjects.Assign | lib/configise.js:79 | `obj[key] = v` keeps the object well formed and maps `key` to `v`. Existing keys keep their positions; a new key goes last. |
| JsObjects.ExtendKeys | lib/configise.js:47 | The assignments `_.extend` makes for a source's keys, in order. There is no contract; it is specified by `ExtendKeysShape`, `ExtendKeysValues` and `ExtendKeysOrder`. |
| JsObjects.Extended | lib/configise.js:47 | `_.extend(obj, src)` for one source. There is no contract; it is specified by `ExtendedValues` and `ExtendedOrder`. |
| JsObjects.ExtendKeysShape | lib/configise.js:47 | Assigning a source's keys one by one keeps the object well formed and keeps existing keys in place. |
| JsObjects.ExtendKeysValues | lib/configise.js:47 | After those assignments, each listed key holds the source's value and every other key keeps its own. |
| JsObjects.ExtendKeysOrder | lib/configise.js:47 | Assigning distinct keys appends exactly the new ones, in source order, after the existing keys. |
| JsObjects.ExtendedValues | lib/configise.js:47 | `_.extend(obj, src)` is a shallow, wholesale overwrite: the values become `obj`'s values overridden by `src`'s own properties. |
| JsObjects.ExtendedOrder | lib/configise.js:47 | `_.extend` leaves `obj`'s keys first, followed by `src`'s new keys in `src`'s order. |
| JsObjects.JsObject.constructor | lib/configise.js:52 | `{}` is an empty, well-formed object. |
| JsObjects.JsObject.Put | lib/configise.js:79 | In-place assignment: the new properties are `Assign` of the old ones. |
| JsObjects.JsObject.Extend | lib/configise.js:47 | The in-place loop over the source's keys leaves exactly `Extended(old, src)`. |
| JsObjects.Call | lib/configise.js:79 | `f(arg)`: a function value is run by the interpreter; calling anything else is a TypeError. There is no contract; `Derive.NonFunctionAborts` states what a non-function derivation entry does. |
| Merge.Loaded | lib/configise.js:44-45 | Loading yields at most one fragment per candidate file, and every fragment is truthy. |
| Merge.LoadedMembers | lib/configise.js:44-45 | A value is loaded if and only if it is truthy and some candidate file yields it. |
| Merge.LoadedAppend | lib/configise.js:45 | Loading keeps candidate order: loading `a + b` gives the fragments of `a` followed by those of `b`. |
| Merge.Merged | lib/configise.js:46-47 | `_.extend.apply(_, [obj].concat(fragments))` as a fold. There is no contract; it is specified by `MergedSnoc` and `Precedence`. |
| Merge.MergedSnoc | lib/configise.js:46-47 | The merge is a left fold: merging `s1..sn` equals extending the merge of `s1..sn-1` with `sn`. |
| Merge.LastDefining | lib/configise.js:46-47 | No fragment gives a key its value exactly when no fragment defines that key. |
| Merge.Precedence | lib/configise.js:43-48 | After the merge, a key's value is the one from the last fragment that defines it, or the base value when none does. Its presence follows the same rule. The result stays well formed and base keys keep their positions. |
| Merge.LoadObject | lib/configise.js:43-49 | `load_object` updates the given object in place and returns it. Its properties become the merge of the loaded fragments onto the old properties; when nothing is loaded they are unchanged. |
| KeyOrder.Below | lib/configise.js:92 | The default string order of `sort`. There is no contract; `BelowTotal`, `BelowTransitive` and `BelowAntisymmetric` prove it a total order. |
| KeyOrder.BelowTotal | lib/configise.js:92 | Any two keys are comparable in the sort order. |
| KeyOrder.BelowTransitive | lib/configise.js:92 | The sort order is transitive. |
| KeyOrder.BelowAntisymmetric | lib/configise.js:92 | Two keys that are each below the other are equal. |
| KeyOrder.Insert | lib/configise.js:92 | Inserting into a sorted list keeps it sorted and adds exactly that key. |
| KeyOrder.Sort | lib/configise.js:92 | `names.sort()`: the result is sorted and is a permutation of the input. |
| Errors.Join | lib/configise.js:96 | `keys.join(", ")`. There is no contract; `JoinNamesEveryKey` states what it keeps. |
| Errors.JoinNamesEveryKey | lib/configise.js:96 | Every key of a list occurs in its `join(", ")`. |
| Errors.Message | lib/configise.js:96 | The messages of the errors that abort start-up (also line 110). There is no contract; `MessageNamesKeys` states that they name their keys. |
| Errors.CatchAsWritten | lib/configise.js:81 | The error the as-written catch blocks (also line 105) actually throw: never a keyed error; a TypeError exactly when the thrown value is `null` or `undefined`, otherwise the ReferenceError for `util`. |
| Errors.CatchAsWrittenOmits | lib/configise.js:81 | The error an as-written catch block (also line 105) throws does not name a key whose first character occurs in none of the stray messages. |
| Errors.StrayLetters | lib/configise.js:81 | `b` and `q` occur in no stray message (also line 105), so keys such as `bar` and `quux` meet the condition above. |
| Errors.MessageNamesKeys | lib/configise.js:96 | The messages of the missing-keys and failed-verification errors (also line 110) name each of their keys. The keyed errors' messages name their key. |
| Derive.Kept | lib/configise.js:70 | A key is kept if and only if it is not dropped. Distinct keys stay distinct. |
| Derive.KeptAppend | lib/configise.js:70 | Omission keeps order: it distributes over concatenation. |
| Derive.Omit | lib/configise.js:70 | `_.omit` keeps exactly the properties whose key is not dropped, with their values, and keeps the object well formed. |
| Derive.DerivationCatch | lib/configise.js:80-82 | The corrected catch block of a derivation. There is no contract; `DerivationCatchNamesKey` states what it raises. |
| Derive.DerivationCatchNamesKey | lib/configise.js:80-82 | The corrected catch block raises the derivation error for its key, and the message names that key. |
| Derive.DerivationCatchAsWritten | lib/configise.js:80-82 | As written, the catch block throws the TypeError or the ReferenceError, never a keyed error. |
| Derive.DerivationCatchAsWrittenOmitsKey | lib/configise.js:81 | As written, a failing derivation of any key that starts with a character in no stray message (such as `bar`) surfaces an error that is not a derivation error and whose message does not contain the key. |
| Derive.Derivations | lib/configise.js:73-85 | The run of the derivations in order, each on the object as updated so far. A run that does not complete fails with the derivation error of one of its keys. |
| Derive.NonFunctionAborts | lib/configise.js:78-83 | An entry that is not a function fails like one that throws: the run stops at once with the derivation error for its key, carrying the TypeError, and the configuration as it was. |
| Derive.DerivationsAppend | lib/configise.js:75-84 | Running `a + b` is running `a`, then, if that completed, running `b` on its result. |
| Derive.DerivationsFrame | lib/configise.js:75-84 | A run changes only the keys it derives: other keys keep their presence and value. Every new key is a derivation key. The object stays well formed with existing keys in place. |
| Derive.DerivationsKeep | lib/configise.js:75-84 | A key no derivation names keeps its presence and value. |
| Derive.DerivationsCover | lib/configise.js:75-84 | A completed run removes no key and leaves every derivation key present. |
| Derive.DerivationHead | lib/configise.js:79 | In a completed run, the first derivation returned the value its key ends up holding. |
| Derive.DerivationAt | lib/configise.js:75-79 | In a completed run, the i-th derivation was called on the object the first i derivations left, and returned its key's final value. |
| Derive.DerivationsSucceed | lib/configise.js:75-84 | The same holds for every i, so a later derivation sees the values of earlier ones. |
| Derive.DerivationsFail | lib/configise.js:78-83 | A run that did not complete stopped at the first derivation that threw. The error names that derivation's key, and no later derivation was applied. |
| Derive.DeriveKey | lib/configise.js:78-79 | `config[key] = f(config)` in place: the result is `f`'s call on the old object, assigned only when it returns. |
| Derive.ApplyDerivations | lib/configise.js:73-85 | The in-place loop leaves exactly the object `Derivations` computes and returns its outcome. An empty derivation object leaves the configuration untouched. |
| Derive.GapFillKeepsBase | lib/configise.js:70-84 | Whether or not a derivation exists for a key the base already has, every base key keeps its value. |
| Derive.GapFillAdds | lib/configise.js:70-84 | A completed run leaves exactly the base keys plus the derivation keys. |
| Derive.GapFill | lib/configise.js:70-85 | Both of the above: derivation fills gaps only. |
| Verification.FunctionValued | lib/configise.js:92-93 | The result lists exactly the own keys whose value is a function; distinct keys give a list without repeats. |
| Verification.Functions | lib/configise.js:92-93 | `_.functions(obj).filter(has)` is sorted and lists exactly the function-valued own keys, each once for a well-formed object. |
| Verification.Absent | lib/configise.js:94 | It lists exactly the keys the configuration has no own property for. A key holding a falsy value is present. Sorted input gives sorted output, distinct input distinct output. |
| Verification.Test | lib/configise.js:103 | `verify_object[key](config_object[key])`. There is no contract; `RejectedKeys`, `VerifyPasses` and `ResolvedIsVerified` state what its results decide. |
| Verification.PredicateCatch | lib/configise.js:104-106 | The corrected catch block of a predicate. There is no contract; `PredicateCatchNamesKey` states what it raises. |
| Verification.PredicateCatchNamesKey | lib/configise.js:104-106 | The corrected catch block raises the predicate error for its key, and the message names that key. |
| Verification.PredicateCatchAsWritten | lib/configise.js:104-106 | As written, the catch block throws the TypeError or the ReferenceError, never a keyed error. |
| Verification.PredicateCatchAsWrittenOmitsKey | lib/configise.js:105 | As written, a throwing predicate for any key that starts with a character in no stray message (such as `quux`) surfaces an error that is not a predicate error and whose message does not contain the key. |
| Verification.Rejected | lib/configise.js:101-108 | An aborted rejection carries the predicate error of one of the checked keys. |
| Verification.RejectedCompletes | lib/configise.js:101-108 | Rejection completes if and only if no predicate throws. |
| Verification.RejectedKeys | lib/configise.js:101-108 | A completed rejection lists exactly the keys whose predicate returned a falsy value. |
| Verification.RejectedSorted | lib/configise.js:100-108 | A completed rejection of sorted keys is sorted. |
| Verification.RejectedDistinct | lib/configise.js:101-108 | A completed rejection of distinct keys lists each key at most once. |
| Verification.RejectedSucceeds | lib/configise.js:100-108 | The three above together. |
| Verification.RejectedFails | lib/configise.js:101-107 | An aborted rejection stopped at the first throwing predicate, and the error names its key. |
| Verification.Verify | lib/configise.js:90-112 | Verification fails only with a missing-keys, predicate or failed-verification error. |
| Verification.MissingKeysBlockPredicates | lib/configise.js:90-97 | If a function-valued verification key is absent, verification fails with the missing-keys error. It lists exactly the absent function-valued keys, sorted and each once, and the outcome is the same whatever the predicates do. |
| Verification.MissingKeysOnlyWhenAbsent | lib/configise.js:94-97 | Conversely, a missing-keys error arises only when some function-valued verification key is absent. |
| Verification.VerifyPasses | lib/configise.js:90-112 | Verification passes if and only if every function-valued verification key is present and its predicate returns a truthy value. |
| Verification.FailuresAggregated | lib/configise.js:99-111 | The failed-verification error comes after every predicate ran without throwing. It lists, sorted and each once, exactly the keys whose predicate returned a falsy value, and the list is non-empty. |
| Verification.ThrowingPredicateAborts | lib/configise.js:99-107 | A predicate error means every key was present and the first throwing predicate, in sorted key order, aborted the check. |
| Verification.RejectedThrowsFirst | lib/configise.js:101-107 | When the predicate of the i-th key is the first to throw, rejection aborts with the predicate error for that key. |
| Verification.PresentReachesPredicates | lib/configise.js:94-111 | With every function-valued key present, the missing-key check passes and the outcome is decided by the predicates alone. |
| Verification.PresentThrowingAborts | lib/configise.js:99-107 | With every key present, the first predicate in sorted key order that throws makes verification fail with the predicate error for its key. |
| Verification.PresentFalsyFails | lib/configise.js:99-111 | With every key present and no predicate throwing, a falsy result makes verification fail with the failed-verification error. |
| Configise.DerivedDir | lib/configise.js:24 | `config_dir + "/derived"` is a sub-directory of the configuration directory. |
| Configise.VerifyDir | lib/configise.js:25 | `config_dir + "/verify"` is a sub-directory of the configuration directory. |
| Configise.DirectoriesDistinct | lib/configise.js:23-25 | The configuration, derivation and verification directories are three different directories. |
| Configise.Fragments | lib/configise.js:44-45 | The fragments a directory yields for the candidate files. There is no contract; `Merge.LoadedMembers` and `Merge.LoadedAppend` state what is loaded, in which order. |
| Configise.BaseConfig | lib/configise.js:64 | The configuration directory merged onto the exported `{}` (line 52). There is no contract; `ResolvedPrecedence` and `MapsWellFormed` state its properties. |
| Configise.DerivationMap | lib/configise.js:67 | The derivation directory merged onto `{}`. There is no contract; `MapsWellFormed` and `ResolvedFillsGaps` state its properties. |
| Configise.Pending | lib/configise.js:70 | The derivation object without the keys the base configuration has. There is no contract; `Derive.Omit` states what it keeps. |
| Configise.Derivation | lib/configise.js:73-85 | The run of the pending derivations on the base configuration. There is no contract; `ResolvedFillsGaps` and `DerivationFailureAborts` state what it yields. |
| Configise.VerificationMap | lib/configise.js:88 | The verification directory merged onto `{}`. There is no contract; `VerificationMapWellFormed` and `ResolvedIsVerified` state its properties. |
| Configise.Resolution | lib/configise.js:63-112 | What resolution yields; a failure is always a derivation, missing-keys, predicate or failed-verification error. |
| Configise.Resolve | lib/configise.js:63-112 | The staged, in-place pipeline yields exactly `Resolution`: the final configuration or the first aborting error. |
| Configise.MapsWellFormed | lib/configise.js:64-67 | The merged configuration and derivation objects are well formed. |
| Configise.VerificationMapWellFormed | lib/configise.js:88 | The merged verification object is well formed when its fragments are, so the missing and failed keys it leads to are each reported once. |
| Configise.ResolvedIsVerified | lib/configise.js:87-112 | After a successful resolution, every verification key is present and its predicate holds of its value. |
| Configise.ResolvedPrecedence | lib/configise.js:64-85 | A key defined by some configuration fragment ends with the last such fragment's value, whatever the derivations. |
| Configise.ResolvedFillsGaps | lib/configise.js:64-85 | Base keys keep their values and the configuration gains exactly the derivation keys. Each derived key holds what its function returned on the object the earlier derivations left. |
| Configise.DerivationFailureAborts | lib/configise.js:73-85 | A failing derivation aborts resolution with a derivation error, at the first derivation that threw. |
| Scenarios.TestCandidates | test/configise_test.js:9-14 | With all three variables set, the candidates are `default`, the three values and the two user pairs, in that order. |
| Scenarios.TestFileNamesShort | test/configise_test.js:16-18 | Each single candidate maps to the file `config_path` names. |
| Scenarios.TestFileNameUserEnv | test/configise_test.js:16-18 | `My_User_Name.My_Env` maps to `my_user_name.my_env.js`. |
| Scenarios.TestFileNameUserNodeEnv | test/configise_test.js:16-18 | `My_User_Name.My_Node_Env` maps to `my_user_name.my_node_env.js`. |
| Scenarios.TestFiles | test/configise_test.js:9-18 | The six files looked up are the lowercased candidates, in precedence order. |
| Scenarios.ExtendEmptyPair | test/configise_test.js:75-83 | Extending `{}` with a fragment copies it, in its key order. |
| Scenarios.OverridePair | test/configise_test.js:85-93 | A later fragment replaces the value of a key it defines, and the key keeps its position. |
| Scenarios.UserOverride | test/configise_test.js:85-93 | Overriding `foo` in the defaults gives `{foo: 2, bar: true}`. |
| Scenarios.DerivesUnspecified | test/configise_test.js:127-138 | A key no fragment defines is derived from the configuration. |
| Scenarios.SpecifiedNotDerived | test/configise_test.js:140-151 | A key a fragment defines is not derived. |
| Scenarios.VerifiesTrueValue | test/configise_test.js:153-164 | A predicate that holds lets verification pass. |
| Scenarios.RejectsFalseValue | test/configise_test.js:166-176 | A predicate that returns false makes verification fail, naming the key. |
| Scenarios.NoDeepMerge | lib/configise.js:47 | An object-valued key overridden by another object is replaced, not merged field by field. |
| Scenarios.DefaultsAlone | test/configise_test.js:75-83 | Whatever the environment, one configuration fragment and no derivation or verification fragment resolve to that fragment. |
| Scenarios.LoadsDefault | test/configise_test.js:75-83 | With the test suite's `ENV`, `NODE_ENV` and `USER` and only `./config/default.js`, resolution yields the defaults. |

## Left out

- The existence check of the configuration directory (lines 58-61) is not modelled. It is an asynchronous callback that may throw only after resolution has finished, so it has no effect on the resolved value.
- The model does not read the environment (lines 23-28). The three variables are an `Env` parameter and the directory is `root`; the `NODE_CONFIG_DIR || "./config"` default is not modelled.
- Module loading (`optional`, line 44) is a `Source` parameter that never throws. Loaded JavaScript functions are opaque `Fn(id)` values run by an `Interpreter` parameter.
- Derivation functions and predicates are modelled as pure. A function that mutates the configuration object it receives, or keeps a reference to it, is not modelled.
- Errors.Message: models the message prefix and the key or key list only. The `: ` + `err.message` + ` => ` + `util.inspect(...)` tail of the keyed messages is not modelled, and neither is the case where a thrown primitive cannot take a new `message`. The TypeError for a thrown `null` or `undefined` carries V8's wording; other engines word it differently.
- Names.LowerChar: lowercases ASCII letters only; `toLowerCase` on other scripts is not modelled.
- KeyOrder.Below: compares Unicode scalar values; JavaScript's default sort compares UTF-16 code units, and the two differ for characters outside the Basic Multilingual Plane.
- JavaScript numbers are modelled as integers (`Num(int)`); floating point, `NaN` and `-0` are not modelled. Only `0` is a falsy number.
- Own properties of a truthy fragment that is not a plain object (a string's indices, a function's properties) are not copied by the model's `_.extend`.
- JavaScript lists integer-like keys first, in numeric order; the model keeps every key in insertion order.
- The export of the configuration object as the module's value (line 52) is modelled only as its construction as `{}`.
- The test suite's scenario with four keys overridden in order (test/configise_test.js:115-125) is covered by Merge.Precedence and Scenarios.UserOverride rather than written out with concrete strings.

## Findings

| source | as written | input that shows it | evidently intended | confidence | as-written member | corrected member |
|---|---|---|---|---|---|---|
| lib/configise.js:81 | The catch block of a derivation builds its message with `util.inspect`, but `util` is never required. A ReferenceError (`util is not defined`) replaces the keyed error; for a thrown `null` or `undefined`, reading `err.message` raises a TypeError first. | Derivation object `{bar: function() { throw new Error("x"); }}` with `bar` absent from the configuration. | The error is re-raised with a message that names the key whose derivation failed. | not executed; high | Derive.DerivationCatchAsWritten (shown by Derive.DerivationCatchAsWrittenOmitsKey with Errors.StrayLetters) | Derive.DerivationCatch (proved by Derive.DerivationCatchNamesKey) |
| lib/configise.js:105 | The catch block of a predicate has the same reference to `util`, so a throwing predicate surfaces a ReferenceError (or, for a thrown `null` or `undefined`, a TypeError) instead of the keyed error. | Verification object `{quux: function() { throw new Error("x"); }}` with `quux` present in the configuration. | The error is re-raised with a message that names the key whose predicate threw. | not executed; high | Verification.PredicateCatchAsWritten (shown by Verification.PredicateCatchAsWrittenOmitsKey with Errors.StrayLetters) | Verification.PredicateCatch (proved by Verification.PredicateCatchNamesKey) |
