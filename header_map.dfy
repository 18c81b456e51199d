/**
  The header-map builder (`build_headers` in src/main.rs). Each parsed
  (key, value) pair is offered to the http crate; a pair whose name or value it
  refuses is skipped, every other pair is inserted into the map, and an insert
  replaces whatever the map held for that name.
 */
module HeaderMap {
  import opened Wrappers

  /** A header name in the form the http crate stores it. */
  type HeaderName = string

  /** A (key, value) pair as produced by the `-H` parser. */
  type Pair = (string, string)

  /**
    The http crate's decisions, which this model leaves abstract:
    `name` is `HeaderName::from_bytes` (None when the key is not a valid
    header name, otherwise the name as stored), and `validValue` says whether
    `HeaderValue::from_str` accepts the value.
   */
  datatype HeaderRules = HeaderRules(name: string -> Option<HeaderName>, validValue: string -> bool)

  /** Both conversions succeed, so the pair reaches the map. */
  predicate Accepted(rules: HeaderRules, p: Pair) {
    rules.name(p.0).Some? && rules.validValue(p.1)
  }

  function NameOf(rules: HeaderRules, p: Pair): HeaderName
    requires Accepted(rules, p)
  {
    rules.name(p.0).value
  }

  /** Pair `i` of `pairs` is accepted and stored under name `n`. */
  predicate NamedAt(rules: HeaderRules, pairs: seq<Pair>, i: int, n: HeaderName) {
    0 <= i < |pairs| && Accepted(rules, pairs[i]) && NameOf(rules, pairs[i]) == n
  }

  /** One loop step: insert an accepted pair, leave the map alone otherwise. */
  function Insert(m: map<HeaderName, string>, rules: HeaderRules, p: Pair): map<HeaderName, string> {
    if Accepted(rules, p) then m[NameOf(rules, p) := p.1] else m
  }

  /** The map the builder produces: the pairs inserted from first to last. */
  function HeaderMapOf(pairs: seq<Pair>, rules: HeaderRules): map<HeaderName, string>
    decreases |pairs|
  {
    if pairs == [] then map[]
    else Insert(HeaderMapOf(pairs[..|pairs| - 1], rules), rules, pairs[|pairs| - 1])
  }

  /** Builds the map in one pass over the pairs, as `build_headers` does. */
  method BuildHeaders(pairs: seq<Pair>, rules: HeaderRules) returns (m: map<HeaderName, string>)
    ensures m == HeaderMapOf(pairs, rules)
  {
    m := map[];
    for i := 0 to |pairs|
      invariant m == HeaderMapOf(pairs[..i], rules)
    {
      var (key, value) := pairs[i];
      match rules.name(key) {
        case Some(name) =>
          if rules.validValue(value) {
            m := m[name := value];
          }
        case None =>
      }
      assert pairs[..i + 1][..i] == pairs[..i];
    }
    assert pairs[..|pairs|] == pairs;
  }

  /** The map holds exactly the names of the accepted pairs. */
  lemma {:induction false} HeaderMapKeys(pairs: seq<Pair>, rules: HeaderRules, n: HeaderName)
    ensures n in HeaderMapOf(pairs, rules) <==> exists i :: NamedAt(rules, pairs, i, n)
    decreases |pairs|
  {
    if pairs != [] {
      var init, last := pairs[..|pairs| - 1], pairs[|pairs| - 1];
      HeaderMapKeys(init, rules, n);
      if n in HeaderMapOf(pairs, rules) {
        if n in HeaderMapOf(init, rules) {
          var i :| NamedAt(rules, init, i, n);
          assert NamedAt(rules, pairs, i, n);
        } else {
          assert NamedAt(rules, pairs, |pairs| - 1, n);
        }
      } else if exists i :: NamedAt(rules, pairs, i, n) {
        var i :| NamedAt(rules, pairs, i, n);
        if i < |pairs| - 1 {
          assert NamedAt(rules, init, i, n);
        }
        assert false;
      }
    }
  }

  /**
    Last write wins: an accepted pair that no later accepted pair overrides
    decides the value stored under its name.
   */
  lemma {:induction false} LastWriteWins(pairs: seq<Pair>, rules: HeaderRules, i: nat)
    requires i < |pairs| && Accepted(rules, pairs[i])
    requires forall j :: i < j < |pairs| && Accepted(rules, pairs[j]) ==> NameOf(rules, pairs[j]) != NameOf(rules, pairs[i])
    ensures NameOf(rules, pairs[i]) in HeaderMapOf(pairs, rules)
    ensures HeaderMapOf(pairs, rules)[NameOf(rules, pairs[i])] == pairs[i].1
    decreases |pairs|
  {
    if i < |pairs| - 1 {
      var init := pairs[..|pairs| - 1];
      assert init[i] == pairs[i];
      forall j | i < j < |init| && Accepted(rules, init[j])
        ensures NameOf(rules, init[j]) != NameOf(rules, init[i])
      {
        assert init[j] == pairs[j];
      }
      LastWriteWins(init, rules, i);
    }
  }

  /** A pair the http crate refuses may be deleted from anywhere in the list without changing the map. */
  lemma {:induction false} RejectedPairIgnored(before: seq<Pair>, p: Pair, after: seq<Pair>, rules: HeaderRules)
    requires !Accepted(rules, p)
    ensures HeaderMapOf(before + [p] + after, rules) == HeaderMapOf(before + after, rules)
    decreases |after|
  {
    if after == [] {
      assert (before + [p])[..|before|] == before;
      assert before + [p] + after == before + [p];
      assert before + after == before;
    } else {
      var init := after[..|after| - 1];
      RejectedPairIgnored(before, p, init, rules);
      assert (before + [p] + after)[..|before + [p] + after| - 1] == before + [p] + init;
      assert (before + after)[..|before + after| - 1] == before + init;
    }
  }
}
