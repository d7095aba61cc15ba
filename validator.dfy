/**
 * The request validator: a map from a field name to the messages recorded
 * against it, filled by `Check`/`AddError` and shown by `Errors`.
 */
module Validation {
  import opened Text

  /** The errors map after AddError(key, message): the message goes at the end of the key's list. */
  function Added(m: map<string, seq<string>>, key: string, message: string): (r: map<string, seq<string>>)
    ensures key in r && r[key] == (if key in m then m[key] else []) + [message]
    ensures forall k :: k != key ==> (k in r <==> k in m)
    ensures forall k :: k in m && k != key ==> r[k] == m[k]
  {
    if key !in m then m[key := [message]] else m[key := m[key] + [message]]
  }

  /** One call `v.Check(ok, key, message)`, as a value. */
  datatype Rule = Rule(ok: bool, key: string, message: string)

  /** The errors map after the calls of a straight-line series of Checks, in order. */
  function Apply(m: map<string, seq<string>>, rules: seq<Rule>): map<string, seq<string>>
    decreases |rules|
  {
    if rules == [] then m
    else
      var r := rules[0];
      Apply(if r.ok then m else Added(m, r.key, r.message), rules[1..])
  }

  /** The messages of the failing rules for `key`, in order. */
  function Failed(rules: seq<Rule>, key: string): (msgs: seq<string>)
    ensures |msgs| <= |rules|
    decreases |rules|
  {
    if rules == [] then []
    else
      var r := rules[0];
      (if !r.ok && r.key == key then [r.message] else []) + Failed(rules[1..], key)
  }

  /**
   * What a series of Checks leaves: a key is present after it exactly when it
   * was before or some rule for it failed, and its list is the earlier list
   * followed by the failing rules' messages in order.
   */
  lemma {:induction false} ApplyMessages(m: map<string, seq<string>>, rules: seq<Rule>, key: string)
    ensures key in Apply(m, rules) <==> key in m || Failed(rules, key) != []
    ensures key in Apply(m, rules) ==>
              Apply(m, rules)[key] == (if key in m then m[key] else []) + Failed(rules, key)
    decreases |rules|
  {
    if rules != [] {
      var r := rules[0];
      var m' := if r.ok then m else Added(m, r.key, r.message);
      ApplyMessages(m', rules[1..], key);
      var before := if key in m then m[key] else [];
      if !r.ok && r.key == key {
        assert Failed(rules, key) == [r.message] + Failed(rules[1..], key);
        assert key in m' && m'[key] == before + [r.message];
        assert before + Failed(rules, key) == (before + [r.message]) + Failed(rules[1..], key);
      } else {
        assert Failed(rules, key) == Failed(rules[1..], key);
        assert (key in m' <==> key in m) && (key in m ==> m'[key] == m[key]);
      }
    }
  }

  /** Two series of Checks run one after the other are one series. */
  lemma {:induction false} ApplyAppend(m: map<string, seq<string>>, a: seq<Rule>, b: seq<Rule>)
    ensures Apply(m, a + b) == Apply(Apply(m, a), b)
    decreases |a|
  {
    if a != [] {
      assert (a + b)[1..] == a[1..] + b;
      var r := a[0];
      ApplyAppend(if r.ok then m else Added(m, r.key, r.message), a[1..], b);
    } else {
      assert a + b == b;
    }
  }

  /** Three Checks one after the other, as the intermediate maps a method body passes through. */
  lemma Apply3(m: map<string, seq<string>>, a: Rule, b: Rule, c: Rule)
    ensures Apply(m, [a, b]) == Apply(Apply(m, [a]), [b])
    ensures Apply(m, [a, b, c]) == Apply(Apply(m, [a, b]), [c])
  {
    ApplyAppend(m, [a], [b]);
    ApplyAppend(m, [a, b], [c]);
    assert [a] + [b] == [a, b];
    assert [a, b] + [c] == [a, b, c];
  }

  /** The failing messages of two series one after the other. */
  lemma {:induction false} FailedAppend(a: seq<Rule>, b: seq<Rule>, key: string)
    ensures Failed(a + b, key) == Failed(a, key) + Failed(b, key)
    decreases |a|
  {
    if a != [] {
      assert (a + b)[1..] == a[1..] + b;
      FailedAppend(a[1..], b, key);
      assert Failed(a + b, key) == Failed([a[0]], key) + Failed(a[1..] + b, key);
    } else {
      assert a + b == b;
    }
  }

  /** One step of Failed, for a list written as its first rule and the rest. */
  lemma FailedCons(r: Rule, rest: seq<Rule>, key: string)
    ensures Failed([r] + rest, key) == (if !r.ok && r.key == key then [r.message] else []) + Failed(rest, key)
  {
    assert ([r] + rest)[1..] == rest;
  }

  /** Rules for other keys record nothing under this one. */
  lemma {:induction false} FailedOtherKey(rules: seq<Rule>, key: string)
    requires forall i :: 0 <= i < |rules| ==> rules[i].key != key
    ensures Failed(rules, key) == []
    decreases |rules|
  {
    if rules != [] {
      FailedOtherKey(rules[1..], key);
    }
  }

  /** Failed over a list of three rules. */
  lemma Failed3(a: Rule, b: Rule, c: Rule, key: string)
    ensures Failed([a, b, c], key) ==
              (if !a.ok && a.key == key then [a.message] else [])
              + (if !b.ok && b.key == key then [b.message] else [])
              + (if !c.ok && c.key == key then [c.message] else [])
  {
    FailedCons(a, [b, c], key);
    FailedCons(b, [c], key);
    FailedCons(c, [], key);
    assert [a] + [b, c] == [a, b, c];
    assert [b] + [c] == [b, c];
  }

  /** A series of Checks leaves a fresh validator valid exactly when every check passed. */
  lemma {:induction false} ApplyEmptyValid(rules: seq<Rule>)
    ensures Apply(map[], rules) == map[] <==> forall i :: 0 <= i < |rules| ==> rules[i].ok
  {
    if exists i :: 0 <= i < |rules| && !rules[i].ok {
      var i :| 0 <= i < |rules| && !rules[i].ok;
      FailedAt(rules, i);
      ApplyMessages(map[], rules, rules[i].key);
    } else {
      ApplyAllPass(map[], rules);
    }
  }

  lemma {:induction false} FailedAt(rules: seq<Rule>, i: nat)
    requires i < |rules| && !rules[i].ok
    ensures Failed(rules, rules[i].key) != []
    decreases i
  {
    if i > 0 {
      FailedAt(rules[1..], i - 1);
    }
  }

  lemma {:induction false} ApplyAllPass(m: map<string, seq<string>>, rules: seq<Rule>)
    requires forall i :: 0 <= i < |rules| ==> rules[i].ok
    ensures Apply(m, rules) == m
    decreases |rules|
  {
    if rules != [] {
      ApplyAllPass(m, rules[1..]);
    }
  }

  /** The two name checks that companies and users both run. */
  function NameRules(name: string): (rules: seq<Rule>)
    ensures forall i :: 0 <= i < |rules| ==> rules[i].key == "name"
    ensures (forall i :: 0 <= i < |rules| ==> rules[i].ok) <==> name != "" && ByteLen(name) <= 128
  {
    var rules := [Rule(name != "", "name", "must be provided"),
                  Rule(ByteLen(name) <= 128, "name", "must not be more than 128 bytes")];
    assert forall i :: 0 <= i < |rules| ==> rules[i] == rules[0] || rules[i] == rules[1];
    assert (forall i :: 0 <= i < |rules| ==> rules[i].ok) ==> rules[0].ok && rules[1].ok;
    rules
  }

  /** How Errors shows a key's messages: one message as a string, several as the list. */
  datatype Shown = One(message: string) | Many(messages: seq<string>)

  function Show(msgs: seq<string>): (s: Shown)
    ensures s.One? <==> |msgs| == 1
    ensures s.One? ==> s.message == msgs[0]
    ensures s.Many? ==> s.messages == msgs
  {
    if |msgs| == 1 then One(msgs[0]) else Many(msgs)
  }

  class Validator {
    var errors: map<string, seq<string>>

    /** Every recorded key holds at least one message. */
    predicate Inv()
      reads this
    {
      forall k :: k in errors ==> |errors[k]| > 0
    }

    /** New(): an empty errors map. */
    constructor New()
      ensures errors == map[] && Inv()
    {
      errors := map[];
    }

    /** The validator is valid when no key has recorded messages. */
    function Valid(): (ok: bool)
      reads this
      requires Inv()
      ensures ok <==> forall k :: k in errors ==> errors[k] == []
    {
      |errors| == 0
    }

    method AddError(key: string, message: string)
      requires Inv()
      modifies this
      ensures Inv()
      ensures errors == Added(old(errors), key, message)
    {
      if key !in errors {
        errors := errors[key := [message]];
      } else {
        errors := errors[key := errors[key] + [message]];
      }
    }

    /** Check(ok, key, message): nothing when ok, otherwise AddError(key, message). */
    method Check(ok: bool, key: string, message: string)
      requires Inv()
      modifies this
      ensures Inv()
      ensures errors == Apply(old(errors), [Rule(ok, key, message)])
    {
      if !ok {
        AddError(key, message);
      }
    }

    /** The errors for display: the same keys, each shown as one message or the list. */
    method Errors() returns (shown: map<string, Shown>)
      requires Inv()
      ensures shown.Keys == errors.Keys
      ensures forall k :: k in shown ==> shown[k] == Show(errors[k])
      ensures forall k :: k in shown ==> shown[k].Many? ==> |shown[k].messages| > 1
    {
      shown := map[];
      var todo := errors.Keys;
      while todo != {}
        invariant todo <= errors.Keys
        invariant shown.Keys == errors.Keys - todo
        invariant forall k :: k in shown ==> shown[k] == Show(errors[k])
        decreases todo
      {
        var key :| key in todo;
        var value := errors[key];
        if |value| == 1 {
          shown := shown[key := One(value[0])];
        } else {
          shown := shown[key := Many(value)];
        }
        todo := todo - {key};
      }
    }
  }

  /** PermittedValue(value, permitted...): slices.Contains. */
  function PermittedValue<T(==)>(value: T, permitted: seq<T>): (r: bool)
    ensures r <==> exists i :: 0 <= i < |permitted| && permitted[i] == value
  {
    value in permitted
  }

  /** No two positions of the list hold the same value. */
  predicate NoDuplicates<T(==)>(xs: seq<T>) {
    forall i, j :: 0 <= i < j < |xs| ==> xs[i] != xs[j]
  }

  lemma NoDuplicatesSnoc<T>(xs: seq<T>, x: T)
    ensures NoDuplicates(xs + [x]) <==> NoDuplicates(xs) && x !in xs
  {
    var ys := xs + [x];
    if x in xs {
      var j :| 0 <= j < |xs| && xs[j] == x;
      assert ys[j] == ys[|xs|];
    }
    if !NoDuplicates(xs) {
      var i, j :| 0 <= i < j < |xs| && xs[i] == xs[j];
      assert ys[i] == ys[j];
    }
  }

  /** One turn of Unique's loop: the map of seen values grows exactly when the value is new. */
  lemma UniqueStep<T>(seen: map<T, bool>, prefix: seq<T>, value: T)
    requires forall x :: x in seen <==> x in prefix
    requires |seen| == |prefix| <==> NoDuplicates(prefix)
    requires |seen| <= |prefix|
    ensures forall x :: x in seen[value := true] <==> x in prefix + [value]
    ensures |seen[value := true]| == |prefix + [value]| <==> NoDuplicates(prefix + [value])
    ensures |seen[value := true]| <= |prefix + [value]|
  {
    NoDuplicatesSnoc(prefix, value);
    if value !in seen {
      assert seen[value := true].Keys == seen.Keys + {value};
    } else {
      assert seen[value := true].Keys == seen.Keys;
    }
  }

  /** Unique: put every value in a map as a key and compare the sizes. */
  method Unique<T(==)>(values: seq<T>) returns (r: bool)
    ensures r <==> NoDuplicates(values)
  {
    var uniqueValues: map<T, bool> := map[];
    var n := 0;
    while n < |values|
      invariant n <= |values|
      invariant forall x :: x in uniqueValues <==> x in values[..n]
      invariant |uniqueValues| == n <==> NoDuplicates(values[..n])
      invariant |uniqueValues| <= n
    {
      var value := values[n];
      UniqueStep(uniqueValues, values[..n], value);
      assert values[..n + 1] == values[..n] + [value];
      uniqueValues := uniqueValues[value := true];
      n := n + 1;
    }
    assert values[..n] == values;
    r := |uniqueValues| == |values|;
  }
}
