/** Health rules, the names they are stored under, and the canonical order of a cause list. */
module Rules {
  import Text

  datatype Rule =
    | PrimaryTelemetry | RequiredObservations | InventoryChange | CpuPressure | MemoryPressure
    | DiskCapacity(id: string) | DiskExhaustion(id: string)
    | RequiredService(id: string) | TemperatureHeadroom(id: string)
    | FilesystemReadOnly(id: string)
    | OomKill | StorageIoError | PreviousPanic | WatchdogReset | CriticalErrorObservation
    | GpuTemperature(id: string) | GpuThermal(id: string) | GpuXid(id: string)
    | GpuReset(id: string) | GpuEccVolatile(id: string) | GpuEccAggregate(id: string)
  {
    /** The part of the name before any colon. */
    function Prefix(): string {
      match this
      case PrimaryTelemetry => "primary-telemetry"
      case RequiredObservations => "required-observations"
      case InventoryChange => "inventory-change"
      case CpuPressure => "cpu-pressure"
      case MemoryPressure => "memory-pressure"
      case DiskCapacity(_) => "disk-capacity"
      case DiskExhaustion(_) => "disk-exhaustion"
      case RequiredService(_) => "required-service"
      case TemperatureHeadroom(_) => "temperature-headroom"
      case FilesystemReadOnly(_) => "filesystem-read-only"
      case OomKill => "oom-kill"
      case StorageIoError => "storage-io-error"
      case PreviousPanic => "previous-panic"
      case WatchdogReset => "watchdog-reset"
      case CriticalErrorObservation => "critical-error-observation"
      case GpuTemperature(_) => "gpu-temperature"
      case GpuThermal(_) => "gpu-thermal"
      case GpuXid(_) => "gpu-xid"
      case GpuReset(_) => "gpu-reset"
      case GpuEccVolatile(_) => "gpu-ecc-volatile"
      case GpuEccAggregate(_) => "gpu-ecc-aggregate"
    }

    predicate HasId() {
      || DiskCapacity? || DiskExhaustion? || RequiredService? || TemperatureHeadroom?
      || FilesystemReadOnly? || IsGpu()
    }

    predicate IsGpu() {
      GpuTemperature? || GpuThermal? || GpuXid? || GpuReset? || GpuEccVolatile? || GpuEccAggregate?
    }

    /** The key of the rule in the stored rule states. */
    function Name(): string {
      if HasId() then Prefix() + ":" + id else Prefix()
    }

    /** Position in the fixed part of the order; 5 for the rules sorted by name. */
    function Rank(): nat {
      match this
      case PrimaryTelemetry => 0
      case RequiredObservations => 1
      case InventoryChange => 2
      case CpuPressure => 3
      case MemoryPressure => 4
      case _ => 5
    }
  }

  /** What precedes the first colon (`str.partition`). */
  function Head(s: string): string {
    if s == "" || s[0] == ':' then "" else [s[0]] + Head(s[1..])
  }

  lemma {:induction false} HeadOfJoined(p: string, rest: string)
    requires ':' !in p
    requires rest == "" || rest[0] == ':'
    ensures Head(p + rest) == p
  {
    if p == "" {
      assert p + rest == rest;
    } else {
      HeadOfJoined(p[1..], rest);
      assert (p + rest)[1..] == p[1..] + rest;
    }
  }

  lemma PrefixHasNoColon(r: Rule)
    ensures ':' !in r.Prefix()
  {
    if r.HasId() {
      IdPrefixHasNoColon(r);
    } else {
      FixedPrefixHasNoColon(r);
    }
  }

  lemma IdPrefixHasNoColon(r: Rule)
    requires r.HasId()
    ensures ':' !in r.Prefix()
  {
  }

  lemma FixedPrefixHasNoColon(r: Rule)
    requires !r.HasId()
    ensures ':' !in r.Prefix()
  {
  }

  lemma HeadOfName(r: Rule)
    ensures Head(r.Name()) == r.Prefix()
  {
    PrefixHasNoColon(r);
    if r.HasId() {
      HeadBeforeColon(r.Prefix(), r.id);
    } else {
      HeadOfJoined(r.Prefix(), "");
      assert r.Prefix() + "" == r.Prefix();
    }
  }

  lemma {:induction false} HeadBeforeColon(p: string, id: string)
    requires ':' !in p
    ensures Head(p + ":" + id) == p
  {
    HeadOfJoined(p, ":" + id);
    assert p + (":" + id) == p + ":" + id;
  }

  /** Two rules never share a stored name, so a map keyed by rules is the stored dictionary. */
  lemma NamesAreInjective(a: Rule, b: Rule)
    requires a.Name() == b.Name()
    ensures a == b
  {
    HeadOfName(a);
    HeadOfName(b);
    var p := a.Prefix();
    // The prefixes differ pairwise in length or in their first character.
    assert |p| == |b.Prefix()| && p[0] == b.Prefix()[0];
    if a.HasId() {
      assert a.Name()[|p| + 1..] == a.id;
      assert b.Name()[|p| + 1..] == b.id;
    }
  }

  /** The name tests the evaluation makes pick exactly the rules meant by them. */
  lemma NameTestsPickTheRule(r: Rule)
    ensures "gpu-" <= r.Name() <==> r.IsGpu()
    ensures "filesystem-read-only:" <= r.Name() <==> r.FilesystemReadOnly?
  {
    var p := r.Prefix();
    var gpu := "gpu-";
    var readOnly := "filesystem-read-only:";
    assert |p| >= 4 && p <= r.Name();
    assert gpu <= r.Name() <==> (p[0] == 'g' && p[1] == 'p' && p[2] == 'u' && p[3] == '-');
    assert p[0] == 'g' <==> r.IsGpu();
    if readOnly <= r.Name() {
      assert r.Name()[0] == readOnly[0] == 'f';
    }
  }

  /** The order of a cause list: the five fixed rules first, the others by name. */
  predicate Before(a: Rule, b: Rule) {
    a.Rank() < b.Rank() || (a.Rank() == 5 && b.Rank() == 5 && Text.Less(a.Name(), b.Name()))
  }

  lemma BeforeIsStrictTotal(a: Rule, b: Rule)
    ensures !Before(a, a)
    ensures Before(a, b) ==> !Before(b, a)
    ensures Before(a, b) || a == b || Before(b, a)
  {
    Text.LessIsStrictTotal(a.Name(), b.Name());
    if a.Name() == b.Name() {
      NamesAreInjective(a, b);
    }
  }

  lemma BeforeIsTransitive(a: Rule, b: Rule, c: Rule)
    requires Before(a, b) && Before(b, c)
    ensures Before(a, c)
  {
    if a.Rank() == 5 && c.Rank() == 5 {
      Text.LessIsTransitive(a.Name(), b.Name(), c.Name());
    }
  }

  ghost predicate Ascending(rules: seq<Rule>) {
    forall i, j :: 0 <= i < j < |rules| ==> Before(rules[i], rules[j])
  }

  /** The rules with a place of their own at the head of a cause list. */
  const HEAD := [PrimaryTelemetry, RequiredObservations, InventoryChange, CpuPressure, MemoryPressure]

  /** Of two causes the earlier is earlier in the head, or alone in it, or earlier by name outside it. */
  lemma CauseListsAreOrdered(rules: seq<Rule>, i: nat, j: nat)
    requires Ascending(rules) && i < j < |rules|
    ensures forall q :: 0 <= q < 5 && rules[j] == HEAD[q] ==> exists p :: 0 <= p < q && rules[i] == HEAD[p]
    ensures rules[i] in HEAD || Text.Less(rules[i].Name(), rules[j].Name())
  {
    assert Before(rules[i], rules[j]);
    forall q | 0 <= q < 5 && rules[j] == HEAD[q] ensures exists p :: 0 <= p < q && rules[i] == HEAD[p] {
      assert HEAD[q].Rank() == q;
      assert rules[i] == HEAD[rules[i].Rank()];
    }
    if rules[i].Rank() < 5 {
      assert rules[i] == HEAD[rules[i].Rank()];
    }
  }

  function Elements(rules: seq<Rule>): set<Rule> {
    set r | r in rules
  }

  lemma EmptyElements(rules: seq<Rule>)
    ensures rules == [] <==> Elements(rules) == {}
  {
    if rules != [] {
      assert rules[0] in Elements(rules);
    }
  }

  /** A cause list is determined by the set of its rules. */
  lemma {:induction false} AscendingListIsUnique(a: seq<Rule>, b: seq<Rule>)
    requires Ascending(a) && Ascending(b) && Elements(a) == Elements(b)
    ensures a == b
  {
    if a == [] || b == [] {
      EmptyElements(a);
      EmptyElements(b);
    } else {
      BeforeIsStrictTotal(a[0], b[0]);
      assert a[0] in Elements(b) && b[0] in Elements(a);
      assert a[0] == b[0];
      BeforeIsStrictTotal(a[0], a[0]);
      assert forall r :: r in Elements(a[1..]) <==> r in Elements(a) && r != a[0] by {
        assert a == [a[0]] + a[1..];
      }
      assert forall r :: r in Elements(b[1..]) <==> r in Elements(b) && r != b[0] by {
        assert b == [b[0]] + b[1..];
      }
      AscendingListIsUnique(a[1..], b[1..]);
      assert a == [a[0]] + a[1..] && b == [b[0]] + b[1..];
    }
  }

  /** The list with a rule put at its place. */
  function Insert(rules: seq<Rule>, r: Rule): (out: seq<Rule>)
    ensures Elements(out) == Elements(rules) + {r}
  {
    if rules == [] || Before(r, rules[0]) then
      [r] + rules
    else
      assert Elements(rules) == {rules[0]} + Elements(rules[1..]);
      var tail := Insert(rules[1..], r);
      assert Elements([rules[0]] + tail) == {rules[0]} + Elements(tail);
      [rules[0]] + tail
  }

  lemma {:induction false} InsertKeepsAscending(rules: seq<Rule>, r: Rule)
    requires Ascending(rules) && r !in rules
    ensures Ascending(Insert(rules, r))
  {
    if rules == [] {
    } else if Before(r, rules[0]) {
      forall j | 0 <= j < |rules| ensures Before(r, rules[j]) {
        if j > 0 { BeforeIsTransitive(r, rules[0], rules[j]); }
      }
    } else {
      BeforeIsStrictTotal(r, rules[0]);
      InsertKeepsAscending(rules[1..], r);
      var tail := Insert(rules[1..], r);
      forall j | 0 <= j < |tail| ensures Before(rules[0], tail[j]) {
        assert tail[j] in Elements(tail);
      }
    }
  }

  /** The rules of a set in cause-list order. */
  ghost function Canonical(rules: set<Rule>): (out: seq<Rule>)
    ensures Ascending(out) && Elements(out) == rules
  {
    if rules == {} then []
    else
      var r :| r in rules;
      var rest := Canonical(rules - {r});
      assert r !in Elements(rest);
      InsertKeepsAscending(rest, r);
      Insert(rest, r)
  }

  /** The rules of a set, sorted. */
  method OrderedRules(rules: set<Rule>) returns (ordered: seq<Rule>)
    ensures ordered == Canonical(rules)
  {
    ordered := [];
    var rest := rules;
    while rest != {}
      invariant rest <= rules
      invariant Elements(ordered) == rules - rest
      invariant Ascending(ordered)
      decreases rest
    {
      var r :| r in rest;
      rest := rest - {r};
      assert r !in Elements(ordered);
      InsertKeepsAscending(ordered, r);
      ordered := Insert(ordered, r);
    }
    AscendingListIsUnique(ordered, Canonical(rules));
  }
}
