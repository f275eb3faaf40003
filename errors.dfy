/** The errors that abort resolution, and their messages. */
module Errors {
  import opened JsObjects

  datatype Error =
    /** A derivation function threw (or was not a function). */
    | DerivationError(key: string, cause: Cause)
    /** Verification keys the configuration has no entry for, in sorted order. */
    | MissingKeys(keys: seq<string>)
    /** A verification predicate threw (or was not a function). */
    | PredicateError(key: string, cause: Cause)
    /** Verification keys whose predicate returned a falsy value, in sorted order. */
    | FailedVerification(keys: seq<string>)
    /** The ReferenceError that evaluating `util.inspect` raises when `util` was never required. */
    | UtilNotDefined
    /** The TypeError that reading `err.message` raises when the thrown value is `null` or `undefined`. */
    | MessageOfNullish(thrown: Value)

  /** `keys.join(", ")` */
  function Join(keys: seq<string>): string
    decreases |keys|
  {
    if |keys| == 0 then ""
    else if |keys| == 1 then keys[0]
    else keys[0] + ", " + Join(keys[1..])
  }

  /** `sub` occurs in `s` starting at position `a`. */
  ghost predicate At(sub: string, s: string, a: int) {
    0 <= a && a + |sub| <= |s| && s[a..a + |sub|] == sub
  }

  /** `sub` occurs in `s` at some position. */
  ghost predicate Occurs(sub: string, s: string) {
    exists a :: At(sub, s, a)
  }

  /** Every joined key can be found in the joined text. */
  lemma {:induction false} JoinNamesEveryKey(keys: seq<string>, i: nat)
    requires i < |keys|
    ensures Occurs(keys[i], Join(keys))
    decreases |keys|
  {
    var s := Join(keys);
    if |keys| == 1 || i == 0 {
      assert At(keys[0], s, 0);
    } else {
      JoinNamesEveryKey(keys[1..], i - 1);
      var t := Join(keys[1..]);
      var a :| At(keys[i], t, a);
      var off := |keys[0]| + 2;
      assert s == keys[0] + ", " + t;
      assert s[off + a..off + a + |keys[i]|] == t[a..a + |keys[i]|];
      assert At(keys[i], s, off + a);
    }
  }

  /** The message of a thrown error; the rendering of the cause and of the offending function is not modelled. */
  function Message(e: Error): string {
    match e
    case DerivationError(key, _) => "Error processing derivation of key " + key
    case MissingKeys(keys) => "Missing configuration keys: [" + Join(keys) + "]"
    case PredicateError(key, _) => "Error processing validation of key " + key
    case FailedVerification(keys) => "Failed verification of keys: [" + Join(keys) + "]"
    case UtilNotDefined => "util is not defined"
    case MessageOfNullish(thrown) =>
      "Cannot read properties of " + (if thrown.Null? then "null" else "undefined") + " (reading 'message')"
  }

  /**
   * What a catch block that rebuilds `err.message` with `util.inspect`
   * throws when `util` was never required: the right-hand side reads
   * `err.message` first, which fails on a thrown `null` or `undefined`;
   * for any other thrown value evaluation reaches `util`, which is not
   * defined. Either way the error the block meant to throw is lost.
   */
  function CatchAsWritten(cause: Cause): (e: Error)
    ensures e.UtilNotDefined? || e.MessageOfNullish?
    ensures e.MessageOfNullish? <==> cause.Thrown? && (cause.exception.Null? || cause.exception.Undefined?)
  {
    if cause.Thrown? && (cause.exception.Null? || cause.exception.Undefined?) then MessageOfNullish(cause.exception)
    else UtilNotDefined
  }

  /** `c` occurs in the message of one of the errors the as-written catch blocks throw. */
  ghost predicate InStrayMessage(c: char) {
    || c in Message(UtilNotDefined)
    || c in Message(MessageOfNullish(Null))
    || c in Message(MessageOfNullish(Undefined))
  }

  /**
   * The error an as-written catch block throws does not name a key that
   * starts with a character occurring in none of the stray messages.
   */
  lemma CatchAsWrittenOmits(key: string, cause: Cause)
    requires key != [] && !InStrayMessage(key[0])
    ensures !Occurs(key, Message(CatchAsWritten(cause)))
  {
    var m := Message(CatchAsWritten(cause));
    assert m == Message(UtilNotDefined) || m == Message(MessageOfNullish(Null)) || m == Message(MessageOfNullish(Undefined));
    forall i | 0 <= i < |m| ensures m[i] != key[0] {
      assert m[i] in m;
    }
    LacksFirst(key, m);
  }

  /** A text none of whose characters is `b` or `q` contains neither. */
  lemma NoBQ(s: string)
    requires forall i | 0 <= i < |s| :: s[i] != 'b' && s[i] != 'q'
    ensures 'b' !in s && 'q' !in s
  {
  }

  /** Neither `b` nor `q` occurs in a stray message, so keys such as `bar` and `quux` are never named. */
  lemma StrayLetters()
    ensures !InStrayMessage('b') && !InStrayMessage('q')
  {
    var pre, post := "Cannot read properties of ", " (reading 'message')";
    NoBQ("util is not defined");
    NoBQ(pre);
    NoBQ(post);
    NoBQ("null");
    NoBQ("undefined");
    assert Message(MessageOfNullish(Null)) == pre + "null" + post;
    assert Message(MessageOfNullish(Undefined)) == pre + "undefined" + post;
  }

  /** A text none of whose characters starts `sub` does not contain `sub`. */
  lemma LacksFirst(sub: string, s: string)
    requires sub != [] && forall i | 0 <= i < |s| :: s[i] != sub[0]
    ensures !Occurs(sub, s)
  {
    forall a ensures !At(sub, s, a) {
      if 0 <= a && a + |sub| <= |s| {
        assert s[a..a + |sub|][0] == s[a];
      }
    }
  }

  /** An occurrence survives putting text around it. */
  lemma OccursWithin(k: string, pre: string, j: string, post: string)
    requires Occurs(k, j)
    ensures Occurs(k, pre + j + post)
  {
    var a :| At(k, j, a);
    var m := pre + j + post;
    assert m[|pre| + a..|pre| + a + |k|] == j[a..a + |k|];
    assert At(k, m, |pre| + a);
  }

  /**
   * Every error except the two stray ones of the as-written catch blocks
   * names its keys in its message: each key of an aggregated error, the one key of a keyed one.
   */
  lemma MessageNamesKeys(e: Error)
    ensures e.DerivationError? || e.PredicateError? ==> Occurs(e.key, Message(e))
    ensures e.MissingKeys? || e.FailedVerification? ==> forall k <- e.keys :: Occurs(k, Message(e))
  {
    var m := Message(e);
    if e.DerivationError? || e.PredicateError? {
      assert At(e.key, m, |m| - |e.key|);
    } else if e.MissingKeys? || e.FailedVerification? {
      var prefix := if e.MissingKeys? then "Missing configuration keys: [" else "Failed verification of keys: [";
      assert m == prefix + Join(e.keys) + "]";
      forall k <- e.keys ensures Occurs(k, m) {
        var i :| 0 <= i < |e.keys| && e.keys[i] == k;
        JoinNamesEveryKey(e.keys, i);
        OccursWithin(k, prefix, Join(e.keys), "]");
      }
    }
  }
}
