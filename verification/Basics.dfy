/** Shared vocabulary: optional values, and measurements as the collector reports them. */
module Basics {

  datatype Option<+T> = None | Some(value: T)

  function Get<K, V>(m: map<K, V>, k: K): Option<V> {
    if k in m then Some(m[k]) else None
  }

  /** A floating-point measurement. Rounding plays no part in the rules, but infinities and
      not-a-number do: a comparison with NaN is always false. */
  datatype Reading = Finite(value: real) | PosInf | NegInf | NaN

  /** The comparison `a < b`. */
  predicate Less(a: Reading, b: Reading) {
    match (a, b)
    case (NaN, _) => false
    case (_, NaN) => false
    case (Finite(x), Finite(y)) => x < y
    case (NegInf, _) => b != NegInf
    case (_, PosInf) => a != PosInf
    case _ => false
  }

  /** The comparison `a <= b`. */
  predicate AtMost(a: Reading, b: Reading) {
    Less(a, b) || (a == b && a != NaN)
  }

  /** A decoded JSON value. */
  datatype Json =
    | JNull
    | JBool(flag: bool)
    | JNumber(number: Reading)
    | JText(text: string)
    | JList(items: seq<Json>)
    | JObject(fields: map<string, Json>)

  /** `document.get(key, default)`. */
  function Lookup(document: map<string, Json>, key: string, default: Json): Json {
    if key in document then document[key] else default
  }

  ghost predicate IsGreatest(m: nat, numbers: set<nat>) {
    m in numbers && forall r :: r in numbers ==> r <= m
  }

  lemma {:induction false} GreatestExists(numbers: set<nat>) returns (m: nat)
    requires numbers != {}
    ensures IsGreatest(m, numbers)
  {
    var k :| k in numbers;
    var others := numbers - {k};
    m := k;
    if others != {} {
      var n := GreatestExists(others);
      m := if k < n then n else k;
    }
    forall r | r in numbers ensures r <= m {
      assert r == k || r in others;
    }
  }

  /** The greatest of a set of numbers. */
  ghost function Greatest(numbers: set<nat>): (m: nat)
    requires numbers != {}
    ensures IsGreatest(m, numbers)
  {
    assert exists m :: IsGreatest(m, numbers) by {
      var m := GreatestExists(numbers);
    }
    var m :| IsGreatest(m, numbers);
    m
  }

  lemma SplitsLast<T>(a: seq<T>, b: seq<T>)
    requires b != []
    ensures b[..|b| - 1] + [b[|b| - 1]] == b && (a + b[..|b| - 1]) + [b[|b| - 1]] == a + b
  {
  }

  lemma SliceTakes<T>(s: seq<T>, m: nat, n: nat, k: nat)
    requires m + k <= n <= |s|
    ensures s[..m] + s[m..n][..k] == s[..m + k]
  {
  }
}
