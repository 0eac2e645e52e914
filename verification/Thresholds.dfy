/** Threshold overrides of a Server Profile: which are accepted, and which band a rule then reads. */
module Thresholds {
  import opened Basics

  /** The six metrics whose thresholds a profile may override. */
  datatype Metric =
    | MemoryAvailable | FilesystemPercent | FilesystemBytes
    | TemperatureHeadroom | CpuUsed | NormalizedLoad
  {
    function Key(): string {
      match this
      case MemoryAvailable => "memory-available-percent"
      case FilesystemPercent => "filesystem-free-percent"
      case FilesystemBytes => "filesystem-free-bytes"
      case TemperatureHeadroom => "temperature-headroom"
      case CpuUsed => "cpu-used-percent"
      case NormalizedLoad => "normalized-load"
    }

    /** A low value is the problem; otherwise a high one is. */
    predicate LowIsBad() { !CpuUsed? && !NormalizedLoad? }

    function FireField(): string { if LowIsBad() then "fireBelow" else "fireAbove" }

    function ClearField(): string { if LowIsBad() then "clearAbove" else "clearBelow" }

    function Unit(): string {
      match this
      case FilesystemBytes => "bytes"
      case TemperatureHeadroom => "celsius"
      case NormalizedLoad => "ratio"
      case _ => "percent"
    }

    function BaselineFire(): real {
      match this
      case FilesystemBytes => 21474836480.0
      case CpuUsed => 95.0
      case NormalizedLoad => 1.5
      case _ => 10.0
    }

    function BaselineClear(): real {
      match this
      case FilesystemBytes => 32212254720.0
      case CpuUsed => 85.0
      case NormalizedLoad => 1.1
      case _ => 15.0
    }
  }

  function MetricOf(key: string): Option<Metric> {
    if key == MemoryAvailable.Key() then Some(MemoryAvailable)
    else if key == FilesystemPercent.Key() then Some(FilesystemPercent)
    else if key == FilesystemBytes.Key() then Some(FilesystemBytes)
    else if key == TemperatureHeadroom.Key() then Some(TemperatureHeadroom)
    else if key == CpuUsed.Key() then Some(CpuUsed)
    else if key == NormalizedLoad.Key() then Some(NormalizedLoad)
    else None
  }

  datatype Fault =
    | NotAllowlisted | ChangesSemantics | NeedsTypedValues | BandsOverlap | WeakensGlobalRule
    | NotAList

  predicate IsSpace(c: char) {
    || '\t' <= c <= '\r' || '\U{001C}' <= c <= ' ' || c == '\U{0085}' || c == '\U{00A0}'
    || c == '\U{1680}' || '\U{2000}' <= c <= '\U{200A}' || c == '\U{2028}' || c == '\U{2029}'
    || c == '\U{202F}' || c == '\U{205F}' || c == '\U{3000}'
  }

  /** Text without leading and trailing white space. */
  function Strip(s: string): string {
    if s != "" && IsSpace(s[0]) then Strip(s[1..])
    else if s != "" && IsSpace(s[|s| - 1]) then Strip(s[..|s| - 1])
    else s
  }

  predicate IsNonnegativeNumber(value: Json) {
    value.JNumber? && value.number.Finite? && value.number.value >= 0.0
  }

  /** The first objection to one entry of the override list, if any. */
  function OverrideError(value: Json): Option<Fault> {
    if !value.JObject? then Some(NotAllowlisted)
    else
      var key := Lookup(value.fields, "key", JNull);
      if !key.JText? || MetricOf(key.text).None? then Some(NotAllowlisted)
      else
        var m := MetricOf(key.text).value;
        if value.fields.Keys != {m.FireField(), m.ClearField(), "key", "unit", "rationale"} then
          Some(ChangesSemantics)
        else
          var fire := value.fields[m.FireField()];
          var clear := value.fields[m.ClearField()];
          var rationale := value.fields["rationale"];
          if value.fields["unit"] != JText(m.Unit())
             || !IsNonnegativeNumber(fire) || !IsNonnegativeNumber(clear)
             || !rationale.JText? || !(1 <= |Strip(rationale.text)| <= 500) then
            Some(NeedsTypedValues)
          else
            var f := fire.number.value;
            var c := clear.number.value;
            if (m.LowIsBad() && f >= c) || (!m.LowIsBad() && f <= c) then Some(BandsOverlap)
            else if (m.LowIsBad() && (f < m.BaselineFire() || c < m.BaselineClear()))
                    || (!m.LowIsBad() && (f > m.BaselineFire() || c > m.BaselineClear())) then
              Some(WeakensGlobalRule)
            else None
  }

  /** One of the first `n` entries has this objection. */
  predicate IsObjection(overrides: seq<Json>, n: nat, f: Fault)
    requires n <= |overrides|
  {
    exists i :: 0 <= i < n && OverrideError(overrides[i]) == Some(f)
  }

  /** The override list of a profile definition is checked entry by entry; each kind of objection
      is reported once. */
  method OverrideDetails(overrides: Json) returns (details: seq<Fault>)
    ensures !overrides.JList? ==> details == [NotAList]
    ensures overrides.JList? ==>
              forall f :: f in details <==> IsObjection(overrides.items, |overrides.items|, f)
    ensures forall i, j :: 0 <= i < j < |details| ==> details[i] != details[j]
    ensures details == [] <==> overrides.JList? && Accepted(overrides.items)
  {
    if !overrides.JList? {
      return [NotAList];
    }
    details := [];
    var items := overrides.items;
    for i := 0 to |items|
      invariant forall f :: f in details <==> IsObjection(items, i, f)
      invariant forall k, j :: 0 <= k < j < |details| ==> details[k] != details[j]
    {
      var error := OverrideError(items[i]);
      OneMoreEntry(items, i);
      if error.Some? && error.value !in details {
        details := details + [error.value];
      }
    }
    NoObjectionsWhenAccepted(items);
    if details != [] {
      assert details[0] in details;
    }
  }

  lemma OneMoreEntry(overrides: seq<Json>, i: nat)
    requires i < |overrides|
    ensures forall f :: IsObjection(overrides, i + 1, f) <==>
              IsObjection(overrides, i, f) || OverrideError(overrides[i]) == Some(f)
  {
    forall f | OverrideError(overrides[i]) == Some(f) ensures IsObjection(overrides, i + 1, f) {
    }
    forall f | IsObjection(overrides, i, f) ensures IsObjection(overrides, i + 1, f) {
      var k :| 0 <= k < i && OverrideError(overrides[k]) == Some(f);
    }
  }

  lemma NoObjectionsWhenAccepted(overrides: seq<Json>)
    ensures Accepted(overrides) <==> forall f :: !IsObjection(overrides, |overrides|, f)
  {
    if !Accepted(overrides) {
      var k :| 0 <= k < |overrides| && OverrideError(overrides[k]).Some?;
      assert IsObjection(overrides, |overrides|, OverrideError(overrides[k]).value);
    }
  }

  /** Every entry passes the check. */
  predicate Accepted(overrides: seq<Json>) {
    forall i :: 0 <= i < |overrides| ==> OverrideError(overrides[i]).None?
  }

  /** The value a rule reads: that of the first entry for the key whose field holds a number. */
  function OverrideValue(overrides: seq<Json>, key: string, field: string, default: Reading): Reading {
    if overrides == [] then default
    else if !overrides[0].JObject? || Lookup(overrides[0].fields, "key", JNull) != JText(key) then
      OverrideValue(overrides[1..], key, field, default)
    else
      var value := Lookup(overrides[0].fields, field, JNull);
      if value.JNumber? then value.number else OverrideValue(overrides[1..], key, field, default)
  }

  datatype Band = Band(fire: Reading, clear: Reading)

  /** The two thresholds of a metric; each is looked up on its own. */
  function BandOf(overrides: seq<Json>, m: Metric): Band {
    Band(OverrideValue(overrides, m.Key(), m.FireField(), Finite(m.BaselineFire())),
         OverrideValue(overrides, m.Key(), m.ClearField(), Finite(m.BaselineClear())))
  }

  /** A band of finite thresholds, the firing one strictly on the bad side of the clearing one. */
  predicate Ordered(m: Metric, b: Band) {
    b.fire.Finite? && b.clear.Finite?
    && if m.LowIsBad() then b.fire.value < b.clear.value else b.clear.value < b.fire.value
  }

  /** Band `b` fires at least as early and clears at least as late as band `a`. */
  predicate Stricter(m: Metric, a: Band, b: Band) {
    Ordered(m, a) && Ordered(m, b)
    && if m.LowIsBad() then a.fire.value <= b.fire.value && a.clear.value <= b.clear.value
       else b.fire.value <= a.fire.value && b.clear.value <= a.clear.value
  }

  lemma KeysNameMetrics(m: Metric)
    ensures MetricOf(m.Key()) == Some(m)
  {
    assert FilesystemPercent.Key()[16] == 'p' && FilesystemBytes.Key()[16] == 'b';
    assert MemoryAvailable.Key()[0] == 'm' && FilesystemPercent.Key()[0] == 'f';
    assert |TemperatureHeadroom.Key()| == 20 && |CpuUsed.Key()| == 16 && |NormalizedLoad.Key()| == 15;
  }

  /** Although the two thresholds are looked up separately, an accepted list always yields one
      ordered band, never weaker than the global one, even when a key is repeated. */
  lemma {:induction false} AcceptedBandIsOrderedAndStricter(overrides: seq<Json>, m: Metric)
    requires Accepted(overrides)
    ensures Stricter(m, BandOf([], m), BandOf(overrides, m))
  {
    if overrides != [] {
      var first := overrides[0];
      assert OverrideError(first).None?;
      AcceptedBandIsOrderedAndStricter(overrides[1..], m);
      if Lookup(first.fields, "key", JNull) == JText(m.Key()) {
        KeysNameMetrics(m);
      }
    }
  }

  function MakeOverride(m: Metric, fire: real, clear: real, rationale: string): Json {
    JObject(map[m.FireField() := JNumber(Finite(fire)), m.ClearField() := JNumber(Finite(clear)),
                "key" := JText(m.Key()), "unit" := JText(m.Unit()), "rationale" := JText(rationale)])
  }

  /** The five fields of a configured override, which have five different names. */
  lemma OverrideFields(m: Metric, fire: real, clear: real, rationale: string)
    ensures var fields := MakeOverride(m, fire, clear, rationale).fields;
            && fields.Keys == {m.FireField(), m.ClearField(), "key", "unit", "rationale"}
            && fields[m.FireField()] == JNumber(Finite(fire))
            && fields[m.ClearField()] == JNumber(Finite(clear))
            && fields["key"] == JText(m.Key())
            && fields["unit"] == JText(m.Unit())
            && fields["rationale"] == JText(rationale)
  {
    assert |m.FireField()| == 9 && |m.ClearField()| == 10 && m.FireField()[0] == 'f' && "rationale"[0] == 'r';
    assert |"key"| == 3 && |"unit"| == 4;
  }

  /** Exactly the stricter non-negative bands can be configured, and each is the band that the rules read then. */
  lemma {:induction false} StricterBandsAreConfigurable(m: Metric, fire: real, clear: real, rationale: string)
    requires 1 <= |Strip(rationale)| <= 500
    ensures OverrideError(MakeOverride(m, fire, clear, rationale)).None? <==>
            fire >= 0.0 && clear >= 0.0
            && Stricter(m, BandOf([], m), Band(Finite(fire), Finite(clear)))
    ensures BandOf([MakeOverride(m, fire, clear, rationale)], m) == Band(Finite(fire), Finite(clear))
  {
    KeysNameMetrics(m);
    OverrideFields(m, fire, clear, rationale);
    assert BandOf([], m) == Band(Finite(m.BaselineFire()), Finite(m.BaselineClear()));
  }

  /** The value has the five fields of an override of the metric and no other, with a non-negative band and a
      rationale that is not blank. */
  predicate IsTyped(value: Json, m: Metric, fire: real, clear: real, rationale: string) {
    && value == MakeOverride(m, fire, clear, rationale) && 1 <= |Strip(rationale)| <= 500
    && fire >= 0.0 && clear >= 0.0
  }

  /** And its band is stricter than the global one. */
  predicate IsOverride(value: Json, m: Metric, fire: real, clear: real, rationale: string) {
    IsTyped(value, m, fire, clear, rationale) && Stricter(m, BandOf([], m), Band(Finite(fire), Finite(clear)))
  }

  predicate NamesMetric(value: Json, m: Metric) {
    value.JObject? && "key" in value.fields && value.fields["key"] == JText(m.Key())
  }

  lemma MetricsAreNamed(value: Json)
    ensures OverrideError(value) == Some(NotAllowlisted) <==> forall k: Metric :: !NamesMetric(value, k)
  {
    forall k: Metric ensures MetricOf(k.Key()) == Some(k) {
      KeysNameMetrics(k);
    }
    if value.JObject? && "key" in value.fields && value.fields["key"].JText? {
      MetricHasKey(value.fields["key"].text);
      if MetricOf(value.fields["key"].text).Some? {
        assert NamesMetric(value, MetricOf(value.fields["key"].text).value);
      }
    }
  }

  lemma {:induction false} BandsAreJudged(m: Metric, fire: real, clear: real, rationale: string)
    requires 1 <= |Strip(rationale)| <= 500 && fire >= 0.0 && clear >= 0.0
    ensures OverrideError(MakeOverride(m, fire, clear, rationale)) ==
            if !Ordered(m, Band(Finite(fire), Finite(clear))) then Some(BandsOverlap)
            else if !Stricter(m, BandOf([], m), Band(Finite(fire), Finite(clear))) then Some(WeakensGlobalRule)
            else None
  {
    KeysNameMetrics(m);
    OverrideFields(m, fire, clear, rationale);
    assert BandOf([], m) == Band(Finite(m.BaselineFire()), Finite(m.BaselineClear()));
  }

  lemma JudgedBandsAreTyped(value: Json)
    requires OverrideError(value) in {None, Some(BandsOverlap), Some(WeakensGlobalRule)}
    ensures exists m, fire, clear, rationale :: IsTyped(value, m, fire, clear, rationale)
  {
    var m := MetricOf(value.fields["key"].text).value;
    var fire, clear := value.fields[m.FireField()].number.value, value.fields[m.ClearField()].number.value;
    MetricHasKey(value.fields["key"].text);
    TypedFieldsMakeOverride(value, m, fire, clear, value.fields["rationale"].text);
    assert IsTyped(value, m, fire, clear, value.fields["rationale"].text);
  }

  /** Which objection is made: first to the metric, then to the fields, then to their values, and of typed ones
      to the order of the two thresholds and at last to a band that weakens the global rule. */
  lemma ObjectionsMean(value: Json)
    ensures OverrideError(value) == Some(NotAllowlisted) <==> forall k: Metric :: !NamesMetric(value, k)
    ensures forall m: Metric :: NamesMetric(value, m) ==>
              (OverrideError(value) == Some(ChangesSemantics) <==>
               value.fields.Keys != {m.FireField(), m.ClearField(), "key", "unit", "rationale"})
    ensures OverrideError(value) in {None, Some(BandsOverlap), Some(WeakensGlobalRule)} <==>
              exists m, fire, clear, rationale :: IsTyped(value, m, fire, clear, rationale)
    ensures forall m, fire, clear, rationale :: IsTyped(value, m, fire, clear, rationale) ==>
              && (OverrideError(value) == Some(BandsOverlap) <==> !Ordered(m, Band(Finite(fire), Finite(clear))))
              && (OverrideError(value) == None <==> Stricter(m, BandOf([], m), Band(Finite(fire), Finite(clear))))
  {
    MetricsAreNamed(value);
    forall m: Metric ensures MetricOf(m.Key()) == Some(m) {
      KeysNameMetrics(m);
    }
    if OverrideError(value) in {None, Some(BandsOverlap), Some(WeakensGlobalRule)} {
      JudgedBandsAreTyped(value);
    }
    forall m, fire, clear, rationale | IsTyped(value, m, fire, clear, rationale)
      ensures OverrideError(value) == Some(BandsOverlap) <==> !Ordered(m, Band(Finite(fire), Finite(clear)))
      ensures OverrideError(value) == None <==> Stricter(m, BandOf([], m), Band(Finite(fire), Finite(clear)))
      ensures OverrideError(value) in {None, Some(BandsOverlap), Some(WeakensGlobalRule)}
    {
      BandsAreJudged(m, fire, clear, rationale);
    }
  }

  lemma TypedFieldsMakeOverride(value: Json, m: Metric, fire: real, clear: real, rationale: string)
    requires NamesMetric(value, m) && value.fields.Keys == {m.FireField(), m.ClearField(), "key", "unit", "rationale"}
    requires value.fields[m.FireField()] == JNumber(Finite(fire)) && value.fields["unit"] == JText(m.Unit())
    requires value.fields[m.ClearField()] == JNumber(Finite(clear)) && value.fields["rationale"] == JText(rationale)
    ensures value == MakeOverride(m, fire, clear, rationale)
  {
    OverrideFields(m, fire, clear, rationale);
    assert value.fields == MakeOverride(m, fire, clear, rationale).fields;
  }

  /** An entry of the list is accepted exactly when it is such an override of one of the six metrics. */
  lemma AcceptedEntriesAreOverrides(value: Json)
    ensures OverrideError(value).None? <==>
              exists m, fire, clear, rationale :: IsOverride(value, m, fire, clear, rationale)
  {
    if OverrideError(value).None? {
      var m := MetricOf(value.fields["key"].text).value;
      var fire, clear := value.fields[m.FireField()].number.value, value.fields[m.ClearField()].number.value;
      MetricHasKey(value.fields["key"].text);
      TypedFieldsMakeOverride(value, m, fire, clear, value.fields["rationale"].text);
      StricterBandsAreConfigurable(m, fire, clear, value.fields["rationale"].text);
      assert IsOverride(value, m, fire, clear, value.fields["rationale"].text);
    }
    forall m, fire, clear, rationale | IsOverride(value, m, fire, clear, rationale) ensures OverrideError(value).None? {
      StricterBandsAreConfigurable(m, fire, clear, rationale);
    }
  }

  lemma MetricHasKey(key: string)
    ensures MetricOf(key).Some? ==> MetricOf(key).value.Key() == key
  {
  }

  /** The first override of a metric is the one the rules read, and bears on no other metric. */
  lemma {:induction false} FirstOverrideIsRead(m: Metric, fire: real, clear: real, rationale: string, rest: seq<Json>,
                                               other: Metric)
    ensures BandOf([MakeOverride(m, fire, clear, rationale)] + rest, other) ==
            if other == m then Band(Finite(fire), Finite(clear)) else BandOf(rest, other)
  {
    OverrideFields(m, fire, clear, rationale);
    KeysNameMetrics(m);
    KeysNameMetrics(other);
    assert ([MakeOverride(m, fire, clear, rationale)] + rest)[1..] == rest;
  }
}
