/**
 * The candidate file names: `default` first, then the overrides the
 * environment selects, lowest precedence first, each lowercased and
 * suffixed with `.js`.
 */
module Names {
  import opened Wrappers

  /** The environment variables `ENV`, `NODE_ENV` and `USER`; `None` when unset. */
  datatype Env = Env(env: Option<string>, nodeEnv: Option<string>, user: Option<string>)

  /** `if (x)` on an environment variable: set and not the empty string. */
  predicate Given(x: Option<string>) {
    x.Some? && x.value != ""
  }

  /** The candidate a variable contributes: its value when given, nothing otherwise. */
  function Slot(x: Option<string>): seq<string> {
    if Given(x) then [x.value] else []
  }

  /** The candidate `user.x` when both variables are given, nothing otherwise. */
  function Pair(user: Option<string>, x: Option<string>): seq<string> {
    if Given(user) && Given(x) then [user.value + "." + x.value] else []
  }

  /** The number of optional candidates `e` selects. */
  function Overrides(e: Env): nat {
    (if Given(e.env) then 1 else 0)
    + (if Given(e.nodeEnv) then 1 else 0)
    + (if Given(e.user) then 1 else 0)
    + (if Given(e.user) && Given(e.env) then 1 else 0)
    + (if Given(e.user) && Given(e.nodeEnv) then 1 else 0)
  }

  /**
   * The candidate list before formatting, built by successive pushes:
   * `default`, env, node_env, user, `user.env`, `user.node_env`, each
   * optional one only when its variables are set.
   */
  method CandidateNames(e: Env) returns (names: seq<string>)
    ensures names == Candidates(e)
    ensures |names| == 1 + Overrides(e)
    ensures names[0] == "default"
  {
    names := [];
    names := names + ["default"];
    if Given(e.env) {
      names := names + [e.env.value];
    }
    if Given(e.nodeEnv) {
      names := names + [e.nodeEnv.value];
    }
    if Given(e.user) {
      names := names + [e.user.value];
    }
    if Given(e.user) && Given(e.env) {
      names := names + [e.user.value + "." + e.env.value];
    }
    if Given(e.user) && Given(e.nodeEnv) {
      names := names + [e.user.value + "." + e.nodeEnv.value];
    }
  }

  /** The candidate list as a value, for specifications: the same six slots, absent ones dropped. */
  function Candidates(e: Env): (names: seq<string>)
    ensures |names| == 1 + Overrides(e)
    ensures names[0] == "default"
  {
    ["default"] + Slot(e.env) + Slot(e.nodeEnv) + Slot(e.user) + Pair(e.user, e.env) + Pair(e.user, e.nodeEnv)
  }

  predicate IsUpper(c: char) {
    'A' <= c <= 'Z'
  }

  /** `toLowerCase` on one character (ASCII letters). */
  function LowerChar(c: char): (r: char)
    ensures !IsUpper(r)
    ensures !IsUpper(c) ==> r == c
    ensures IsUpper(c) ==> r as int - c as int == 'a' as int - 'A' as int
  {
    if IsUpper(c) then (c as int - 'A' as int + 'a' as int) as char else c
  }

  /** `s.toLowerCase()` */
  function Lower(s: string): (r: string)
    ensures |r| == |s|
    ensures forall i | 0 <= i < |s| :: r[i] == LowerChar(s[i])
  {
    seq(|s|, i requires 0 <= i < |s| => LowerChar(s[i]))
  }

  /** Lowercasing is idempotent and leaves no upper-case letter. */
  lemma LowerIdempotent(s: string)
    ensures Lower(Lower(s)) == Lower(s)
    ensures forall i | 0 <= i < |s| :: !IsUpper(Lower(s)[i])
  {
  }

  /** `it.toLowerCase() + ".js"`: the name, lowercased, with the `.js` suffix. */
  function FileName(name: string): (r: string)
    ensures |r| == |name| + 3 && r[|name|..] == ".js"
    ensures forall i | 0 <= i < |name| :: r[i] == LowerChar(name[i])
    ensures forall i | 0 <= i < |r| :: !IsUpper(r[i])
  {
    Lower(name) + ".js"
  }

  /** The candidate names in file-name form, in the same order. */
  function FileNames(names: seq<string>): (files: seq<string>)
    ensures |files| == |names|
    ensures forall i | 0 <= i < |names| ::
      && |files[i]| == |names[i]| + 3
      && files[i][|names[i]|..] == ".js"
      && files[i][..|names[i]|] == Lower(names[i])
      && (forall c | 0 <= c < |files[i]| :: !IsUpper(files[i][c]))
  {
    seq(|names|, i requires 0 <= i < |names| => FileName(names[i]))
  }

  /** 1 when `c` holds, 0 otherwise. */
  function Bit(c: bool): nat {
    if c then 1 else 0
  }

  /**
   * The files looked up always start with `default.js`; each selected
   * override follows at the position given by the number of selected
   * overrides of lower precedence, so the order is always
   * default < env < node_env < user < user.env < user.node_env.
   */
  lemma CandidateFiles(e: Env)
    ensures var files := FileNames(Candidates(e));
      && |files| == 1 + Overrides(e)
      && files[0] == "default.js"
      && (Given(e.env) ==> files[1] == FileName(e.env.value))
      && (Given(e.nodeEnv) ==> files[1 + Bit(Given(e.env))] == FileName(e.nodeEnv.value))
      && (Given(e.user) ==> files[1 + Bit(Given(e.env)) + Bit(Given(e.nodeEnv))] == FileName(e.user.value))
      && (Given(e.user) && Given(e.env) ==>
            files[2 + Bit(Given(e.env)) + Bit(Given(e.nodeEnv))] == FileName(e.user.value + "." + e.env.value))
      && (Given(e.user) && Given(e.nodeEnv) ==>
            files[Overrides(e)] == FileName(e.user.value + "." + e.nodeEnv.value))
  {
    assert Lower("default") == "default";
  }
}
