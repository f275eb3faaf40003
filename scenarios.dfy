/** The behaviours the project's test suite checks, as lemmas about the model. */
module Scenarios {
  import opened Wrappers
  import opened JsObjects
  import opened Names
  import opened Merge
  import opened Errors
  import opened KeyOrder
  import opened Derive
  import opened Verification
  import opened Configise

  /** The environment the test suite sets up. */
  const TestEnv := Env(Some("My_Env"), Some("My_Node_Env"), Some("My_User_Name"))

  /** All three variables set: the default, the three names, then the two user-qualified pairs. */
  lemma TestCandidates()
    ensures Candidates(TestEnv) == ["default", "My_Env", "My_Node_Env", "My_User_Name",
                                    "My_User_Name.My_Env", "My_User_Name.My_Node_Env"]
  {
    assert "My_User_Name" + "." + "My_Env" == "My_User_Name.My_Env";
    assert "My_User_Name" + "." + "My_Node_Env" == "My_User_Name.My_Node_Env";
  }

  /** Each candidate is looked up under its lowercased name with `.js` appended. */
  lemma TestFileNamesShort()
    ensures FileName("default") == "default.js" && FileName("My_Env") == "my_env.js"
    ensures FileName("My_Node_Env") == "my_node_env.js" && FileName("My_User_Name") == "my_user_name.js"
  {
    assert Lower("default") == "default";
    assert Lower("My_Env") == "my_env";
    assert Lower("My_Node_Env") == "my_node_env";
    assert Lower("My_User_Name") == "my_user_name";
  }

  /** The user-qualified candidates are lowercased as a whole, dot included. */
  lemma TestFileNameUserEnv()
    ensures FileName("My_User_Name.My_Env") == "my_user_name.my_env.js"
  {
    assert Lower("My_User_Name.My_Env") == "my_user_name.my_env";
  }

  lemma TestFileNameUserNodeEnv()
    ensures FileName("My_User_Name.My_Node_Env") == "my_user_name.my_node_env.js"
  {
    assert Lower("My_User_Name.My_Node_Env") == "my_user_name.my_node_env";
  }

  /** With all three variables set, six files are looked up, lowercased, in precedence order. */
  lemma TestFiles()
    ensures FileNames(Candidates(TestEnv)) == [
      "default.js", "my_env.js", "my_node_env.js", "my_user_name.js",
      "my_user_name.my_env.js", "my_user_name.my_node_env.js"]
  {
    TestCandidates();
    TestFileNamesShort();
    TestFileNameUserEnv();
    TestFileNameUserNodeEnv();
  }

  /*
   * The test suite's fixtures, with the keys `foo` and `bar` and the values
   * left symbolic: any two distinct keys behave alike.
   */

  /** Extending an empty object copies the fragment, in its key order. */
  lemma ExtendEmptyPair(foo: string, bar: string, t: Value, t2: Value)
    requires foo != bar
    ensures Extended(Empty, Obj(Props([foo, bar], map[foo := t, bar := t2]))) == Props([foo, bar], map[foo := t, bar := t2])
  {
    var d := Props([foo, bar], map[foo := t, bar := t2]);
    assert ExtendKeys(Empty, d, [foo, bar][..1]) == Props([foo], map[foo := t]);
  }

  /** A later fragment replaces the value of a key it defines and keeps that key's position. */
  lemma OverridePair(foo: string, bar: string, t: Value, t2: Value, two: Value)
    requires foo != bar
    ensures Extended(Props([foo, bar], map[foo := t, bar := t2]), Obj(Props([foo], map[foo := two])))
      == Props([foo, bar], map[foo := two, bar := t2])
  {
    var d := Props([foo, bar], map[foo := t, bar := t2]);
    var u := Props([foo], map[foo := two]);
    assert [foo][..0] == [];
    assert ExtendKeys(d, u, [foo]) == Assign(d, foo, two);
    assert d.vals[foo := two] == map[foo := two, bar := t2];
  }

  /** A user file overrides one key of the defaults and leaves the other. */
  lemma UserOverride(foo: string, bar: string, t: Value, two: Value)
    requires foo != bar
    ensures Merged(Empty, [Obj(Props([foo, bar], map[foo := t, bar := t])), Obj(Props([foo], map[foo := two]))])
      == Props([foo, bar], map[foo := two, bar := t])
  {
    var d := Props([foo, bar], map[foo := t, bar := t]);
    var u := Props([foo], map[foo := two]);
    ExtendEmptyPair(foo, bar, t, t);
    OverridePair(foo, bar, t, t, two);
    assert [Obj(d), Obj(u)][1..] == [Obj(u)] && [Obj(u)][1..] == [];
    assert Merged(Empty, [Obj(d), Obj(u)]) == Merged(d, [Obj(u)]);
    assert Merged(d, [Obj(u)]) == Merged(Extended(d, Obj(u)), []);
  }

  /** A key that no fragment defines is filled in from its derivation, called on the configuration. */
  lemma DerivesUnspecified(run: Interpreter, foo: string, bar: string, t: Value)
    requires foo != bar
    requires run(0, Obj(Props([foo], map[foo := t]))) == Success(t)
    ensures var base := Props([foo], map[foo := t]);
      var pending := Omit(Props([bar], map[bar := Fn(0)]), base.keys);
      Derivations(base, pending.keys, pending, run) == Run(Props([foo, bar], map[foo := t, bar := t]), Pass)
  {
    var base := Props([foo], map[foo := t]);
    var pending := Omit(Props([bar], map[bar := Fn(0)]), base.keys);
    assert pending.keys == [bar];
    assert Get(pending, bar) == Fn(0);
  }

  /** A key that a fragment defines is never derived: its derivation is not even called. */
  lemma SpecifiedNotDerived(run: Interpreter, foo: string, bar: string, t: Value, f: Value)
    requires foo != bar
    ensures var base := Props([foo, bar], map[foo := t, bar := f]);
      var pending := Omit(Props([bar], map[bar := Fn(0)]), base.keys);
      Derivations(base, pending.keys, pending, run) == Run(base, Pass)
  {
    var base := Props([foo, bar], map[foo := t, bar := f]);
    var pending := Omit(Props([bar], map[bar := Fn(0)]), base.keys);
    assert pending.keys == [];
  }

  /** A predicate that holds of a present key lets verification pass. */
  lemma VerifiesTrueValue(run: Interpreter, foo: string)
    requires run(1, Bool(true)) == Success(Bool(true))
    ensures Verify(Props([foo], map[foo := Bool(true)]), Props([foo], map[foo := Fn(1)]), run) == Pass
  {
    var ver := Props([foo], map[foo := Fn(1)]);
    assert [foo][1..] == [];
    assert FunctionValued(ver.keys, ver) == [foo];
    assert Sort([foo]) == [foo];
    assert Functions(ver) == [foo];
    var cfg := Props([foo], map[foo := Bool(true)]);
    assert Absent([foo], cfg) == [];
    assert Test(run, ver, cfg, foo) == Success(Bool(true));
    assert Rejected([foo], ver, cfg, run) == Success([]);
  }

  /** A predicate that returns a falsy value makes verification fail, naming the key. */
  lemma RejectsFalseValue(run: Interpreter, foo: string)
    requires run(2, Bool(true)) == Success(Bool(false))
    ensures Verify(Props([foo], map[foo := Bool(true)]), Props([foo], map[foo := Fn(2)]), run)
      == Fail(FailedVerification([foo]))
  {
    var ver := Props([foo], map[foo := Fn(2)]);
    assert [foo][1..] == [];
    assert FunctionValued(ver.keys, ver) == [foo];
    assert Sort([foo]) == [foo];
    assert Functions(ver) == [foo];
    var cfg := Props([foo], map[foo := Bool(true)]);
    assert Absent([foo], cfg) == [];
    assert Test(run, ver, cfg, foo) == Success(Bool(false));
    assert Rejected([foo], ver, cfg, run) == Success([foo]);
  }

  /** Values are replaced wholesale: an object-valued key overridden by another object is not merged field by field. */
  lemma NoDeepMerge(k: string, inner: Props, override: Props)
    ensures Extended(Props([k], map[k := Obj(inner)]), Obj(Props([k], map[k := Obj(override)]))).vals[k] == Obj(override)
  {
    ExtendedValues(Props([k], map[k := Obj(inner)]), Obj(Props([k], map[k := Obj(override)])));
  }

  /** A source that holds only `./config/default.js`. */
  function DefaultOnly(exports: Value): Source {
    (dir: string, file: string) => if dir == "./config" && file == "default.js" then Some(exports) else None
  }

  /** A directory none of whose candidate files the source holds contributes no fragment. */
  lemma {:induction false} LoadedNone(source: Source, dir: string, files: seq<string>)
    requires forall f <- files :: source(dir, f).None?
    ensures Loaded(source, dir, files) == []
    decreases |files|
  {
    if files != [] {
      assert files[0] in files;
      assert forall f <- files[1..] :: f in files;
      LoadedNone(source, dir, files[1..]);
    }
  }

  /** A directory whose only file the source holds is its first candidate contributes exactly that fragment. */
  lemma LoadedOnlyFirst(source: Source, dir: string, files: seq<string>, v: Value)
    requires files != [] && source(dir, files[0]) == Some(v) && Truthy(v)
    requires forall f <- files[1..] :: source(dir, f).None?
    ensures Loaded(source, dir, files) == [v]
  {
    LoadedNone(source, dir, files[1..]);
  }

  /**
   * Whatever the environment, when the configuration directory yields one
   * fragment and the derivation and verification directories none, that
   * fragment is the configuration.
   */
  lemma DefaultsAlone(e: Env, root: string, source: Source, run: Interpreter, foo: string, t: Value)
    requires Fragments(e, root, source) == [Obj(Props([foo], map[foo := t]))]
    requires Fragments(e, DerivedDir(root), source) == [] && Fragments(e, VerifyDir(root), source) == []
    ensures Resolution(e, root, source, run) == Success(Props([foo], map[foo := t]))
  {
    var d := Props([foo], map[foo := t]);
    assert [foo][..0] == [];
    assert ExtendKeys(Empty, d, [foo]) == Assign(Empty, foo, t);
    assert Extended(Empty, Obj(d)) == d;
    var frags := Fragments(e, root, source);
    assert frags[1..] == [];
    assert Merged(Empty, frags) == Merged(d, []) == d;
    assert BaseConfig(e, root, source) == d;
    assert Pending(e, root, source).keys == [];
  }

  /**
   * With the test environment's variables set but only a defaults file
   * present (no override file, no derivation file, no verification file),
   * the defaults are the configuration.
   */
  lemma LoadsDefault(run: Interpreter, foo: string, t: Value)
    ensures Resolution(TestEnv, "./config", DefaultOnly(Obj(Props([foo], map[foo := t]))), run)
      == Success(Props([foo], map[foo := t]))
  {
    var d := Props([foo], map[foo := t]);
    var src := DefaultOnly(Obj(d));
    var files := FileNames(Candidates(TestEnv));
    TestFiles();
    assert files[0] == "default.js";
    assert forall f <- files[1..] :: f != "default.js";
    LoadedOnlyFirst(src, "./config", files, Obj(d));
    DirectoriesDistinct("./config");
    LoadedNone(src, DerivedDir("./config"), files);
    LoadedNone(src, VerifyDir("./config"), files);
    DefaultsAlone(TestEnv, "./config", src, run, foo, t);
  }
}
