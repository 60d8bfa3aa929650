/**
 * From the Gpu spec to Helm values: what BuildValues returns, and the theorem that
 * comparing two such results detects exactly the spec changes that matter.
 */
module Values {
  import opened Text
  import opened Json

  type Int32 = n: int | -0x8000_0000 <= n < 0x8000_0000

  datatype OsType = GardenLinux | Ubuntu

  /** spec.driver.version and spec.timeSlicing.replicas, each below an optional pointer. */
  datatype GpuSpec = GpuSpec(driver: Option<string>, replicas: Option<Int32>)

  type Fields = map<string, Value>

  const DRIVER := "driver"
  const VERSION := "version"
  const DEVICE_PLUGIN := "devicePlugin"
  const CONFIG := "config"

  const DEFAULT_DRIVER: Fields := map["enabled" := Bool(true), "repository" := Str("nvcr.io/nvidia")]

  function ConfigMapName(replicas: Int32): string {
    "gpu-time-slicing-config-" + Decimal(replicas)
  }

  /** TimeSlicingConfigMapName: empty when time-slicing is off. */
  function TimeSlicingConfigMapName(spec: GpuSpec): string {
    if spec.replicas.None? then "" else ConfigMapName(spec.replicas.value)
  }

  const SHARING_HEAD: string :=
    "version: v1\nsharing:\n  timeSlicing:\n    resources:\n    - name: nvidia.com/gpu\n      replicas: "

  function SharingData(replicas: Int32): string {
    SHARING_HEAD + Decimal(replicas) + "\n"
  }

  function TimeSlicingConfig(replicas: Int32): Value {
    Map(map["create" := Bool(true),
            "name" := Str(ConfigMapName(replicas)),
            "default" := Str("any"),
            "data" := Map(map["any" := Str(SharingData(replicas))])])
  }

  /** The nested map under a key; empty when the key is absent or holds something else. */
  function Sub(m: Fields, key: string): Fields {
    if key in m && m[key].Map? then m[key].fields else map[]
  }

  /** A driver.version the YAML decoder read as a number becomes a string. */
  function Normalized(base: Fields): Fields {
    var d := Sub(base, DRIVER);
    if VERSION in d && d[VERSION].Float?
    then base[DRIVER := Map(d[VERSION := Str(Decimal(d[VERSION].f))])]
    else base
  }

  function SpecDriverVersion(spec: GpuSpec): string {
    if spec.driver.None? then "" else spec.driver.value
  }

  function DriverFields(values: Fields): Fields {
    if DRIVER in values && values[DRIVER].Map? then values[DRIVER].fields else DEFAULT_DRIVER
  }

  function Overridden(driver: Fields, spec: GpuSpec): Fields {
    if SpecDriverVersion(spec) != "" then driver[VERSION := Str(SpecDriverVersion(spec))] else driver
  }

  function WithDriver(values: Fields, spec: GpuSpec): Fields {
    values[DRIVER := Map(Overridden(DriverFields(values), spec))]
  }

  function WithTimeSlicing(values: Fields, spec: GpuSpec): Fields {
    if spec.replicas.None? then values
    else values[DEVICE_PLUGIN :=
                  Map(Sub(values, DEVICE_PLUGIN)[CONFIG := TimeSlicingConfig(spec.replicas.value)])]
  }

  /** What the overrides start from: the embedded base on Garden Linux, nothing on Ubuntu. */
  function StartValues(base: Fields, os: OsType): Fields {
    if os.GardenLinux? then Normalized(base) else map[]
  }

  /** BuildValues; base is the parsed embedded values file. */
  function BuildValues(base: Fields, spec: GpuSpec, os: OsType): Fields {
    WithTimeSlicing(WithDriver(StartValues(base, os), spec), spec)
  }

  lemma BuiltNeverEmpty(base: Fields, spec: GpuSpec, os: OsType)
    ensures BuildValues(base, spec, os) != map[]
  {
    assert DRIVER in BuildValues(base, spec, os);
  }

  // ---- which values are built ----

  /** The plugin configuration for a replica count, written out. */
  ghost predicate IsTimeSlicing(config: Value, replicas: Int32) {
    config == Map(map[
      "create" := Bool(true),
      "name" := Str("gpu-time-slicing-config-" + Decimal(replicas)),
      "default" := Str("any"),
      "data" := Map(map["any" := Str(
        "version: v1\nsharing:\n  timeSlicing:\n    resources:\n    - name: nvidia.com/gpu\n      replicas: "
        + Decimal(replicas) + "\n")])])
  }

  lemma TimeSlicingIsWrittenOut(replicas: Int32)
    ensures IsTimeSlicing(TimeSlicingConfig(replicas), replicas)
  {}

  /** The replica count can be read back from the configuration. */
  lemma TimeSlicingTellsReplicas(config: Value, m: Int32, n: Int32)
    requires IsTimeSlicing(config, m) && IsTimeSlicing(config, n)
    ensures m == n
  {
    var a, b := "gpu-time-slicing-config-" + Decimal(m), "gpu-time-slicing-config-" + Decimal(n);
    assert config.fields["name"] == Str(a) && config.fields["name"] == Str(b);
    SamePrefix("gpu-time-slicing-config-", Decimal(m), Decimal(n));
    DecimalInjective(m, n);
  }

  /** The override in a spec; none when it is absent or empty. */
  ghost predicate Overrides(spec: GpuSpec, version: string) { spec.driver == Some(version) && version != "" }

  ghost predicate OverridesNothing(spec: GpuSpec) { spec.driver.None? || spec.driver.value == "" }

  /** On Ubuntu the values hold what the spec asks for, NVIDIA's driver image, and nothing else. */
  lemma UbuntuValues(base: Fields, spec: GpuSpec)
    ensures var v := BuildValues(base, spec, Ubuntu);
            && v.Keys == {"driver"} + (if spec.replicas.Some? then {"devicePlugin"} else {})
            && (OverridesNothing(spec) ==>
                  v["driver"] == Map(map["enabled" := Bool(true), "repository" := Str("nvcr.io/nvidia")]))
            && (forall version | Overrides(spec, version) ::
                  v["driver"] == Map(map["enabled" := Bool(true), "repository" := Str("nvcr.io/nvidia"),
                                         "version" := Str(version)]))
            && (spec.replicas.Some? ==>
                  && v["devicePlugin"].Map? && v["devicePlugin"].fields.Keys == {"config"}
                  && IsTimeSlicing(v["devicePlugin"].fields["config"], spec.replicas.value))
  {
    hide TimeSlicingConfig, IsTimeSlicing;
    if spec.replicas.Some? { TimeSlicingIsWrittenOut(spec.replicas.value); }
  }

  /** What the driver section becomes: the base's own fields, except for the version. */
  ghost predicate DriverBuilt(before: Fields, after: Fields, spec: GpuSpec) {
    && after.Keys == before.Keys + (if OverridesNothing(spec) then {} else {"version"})
    && (forall k | k in before && k != "version" :: after[k] == before[k])
    && (forall version | Overrides(spec, version) :: after["version"] == Str(version))
    && (OverridesNothing(spec) && "version" in before ==>
          after["version"] == match before["version"] case Float(f) => Str(Decimal(f)) case v => v)
  }

  /** What the plugin section becomes: the base's own fields and the configuration. */
  ghost predicate PluginBuilt(before: Fields, after: Fields, replicas: Int32) {
    && after.Keys == before.Keys + {"config"}
    && (forall k | k in before && k != "config" :: after[k] == before[k])
    && IsTimeSlicing(after["config"], replicas)
  }

  /** A section of the base, if it is an object. */
  ghost function Section(base: Fields, key: string, otherwise: Fields): Fields {
    if key in base && base[key].Map? then base[key].fields else otherwise
  }

  lemma DriverIsBuilt(base: Fields, spec: GpuSpec)
    ensures var v := WithDriver(Normalized(base), spec);
            && v.Keys == base.Keys + {"driver"} && (forall k | k in base && k != "driver" :: v[k] == base[k])
            && v["driver"].Map?
            && DriverBuilt(Section(base, "driver", map["enabled" := Bool(true), "repository" := Str("nvcr.io/nvidia")]),
                           v["driver"].fields, spec)
  {}

  lemma PluginIsBuilt(values: Fields, spec: GpuSpec)
    ensures var v := WithTimeSlicing(values, spec);
            && v.Keys == values.Keys + (if spec.replicas.Some? then {"devicePlugin"} else {})
            && (forall k | k in values && (k != "devicePlugin" || spec.replicas.None?) :: v[k] == values[k])
            && (spec.replicas.Some? ==>
                  v["devicePlugin"].Map?
                  && PluginBuilt(Section(values, "devicePlugin", map[]), v["devicePlugin"].fields, spec.replicas.value))
  {
    hide TimeSlicingConfig, IsTimeSlicing;
    if spec.replicas.Some? { TimeSlicingIsWrittenOut(spec.replicas.value); }
  }

  /** On Garden Linux the embedded base is kept, except for what the spec asks for. */
  lemma GardenLinuxValues(base: Fields, spec: GpuSpec)
    ensures var v := BuildValues(base, spec, GardenLinux);
            && v.Keys == base.Keys + {"driver"} + (if spec.replicas.Some? then {"devicePlugin"} else {})
            && (forall k | k in base && k != "driver" && (k != "devicePlugin" || spec.replicas.None?) :: v[k] == base[k])
            && v["driver"].Map?
            && DriverBuilt(Section(base, "driver", map["enabled" := Bool(true), "repository" := Str("nvcr.io/nvidia")]),
                           v["driver"].fields, spec)
            && (spec.replicas.Some? ==>
                  v["devicePlugin"].Map?
                  && PluginBuilt(Section(base, "devicePlugin", map[]), v["devicePlugin"].fields, spec.replicas.value))
  {
    hide WithDriver, WithTimeSlicing, Normalized, DriverBuilt, PluginBuilt;
    DriverIsBuilt(base, spec);
    PluginIsBuilt(WithDriver(Normalized(base), spec), spec);
  }

  // ---- exact change detection ----

  function Lookup(m: Fields, key: string): Option<Value> {
    if key in m then Some(m[key]) else None
  }

  function MeaningOf(v: Option<Value>): Option<Value> {
    if v.None? then None else Some(Meaning(v.value))
  }

  /** The driver version the release will ask for: the override, else the base's default. */
  function EffectiveVersion(base: Fields, spec: GpuSpec, os: OsType): Option<Value> {
    if SpecDriverVersion(spec) != "" then Some(Str(SpecDriverVersion(spec)))
    else Lookup(Sub(StartValues(base, os), DRIVER), VERSION)
  }

  /** The time-slicing config the release will carry: the spec's, else one in the base. */
  function EffectiveConfig(base: Fields, spec: GpuSpec, os: OsType): Option<Value> {
    if spec.replicas.Some? then Some(TimeSlicingConfig(spec.replicas.value))
    else Lookup(Sub(StartValues(base, os), DEVICE_PLUGIN), CONFIG)
  }

  lemma MeaningByKeys(a: Fields, b: Fields)
    ensures Meaning(Map(a)) == Meaning(Map(b)) <==>
            forall k :: MeaningOf(Lookup(a, k)) == MeaningOf(Lookup(b, k))
  {
    var x, y := Meaning(Map(a)).fields, Meaning(Map(b)).fields;
    assert x.Keys == a.Keys && y.Keys == b.Keys;
    assert forall k | k in a :: Some(x[k]) == MeaningOf(Lookup(a, k));
    assert forall k | k in b :: Some(y[k]) == MeaningOf(Lookup(b, k));
    if forall k :: MeaningOf(Lookup(a, k)) == MeaningOf(Lookup(b, k)) {
      forall k ensures k in x <==> k in y {
        assert MeaningOf(Lookup(a, k)) == MeaningOf(Lookup(b, k));
      }
      assert x == y;
    }
    if x == y {
      forall k ensures MeaningOf(Lookup(a, k)) == MeaningOf(Lookup(b, k)) {
        assert k in x <==> k in y;
      }
    }
  }

  /** Maps that differ at one key at most are told apart there and nowhere else. */
  lemma OneKeyMeaning(a: Fields, b: Fields, key: string)
    requires forall k | k != key :: Lookup(a, k) == Lookup(b, k)
    ensures Meaning(Map(a)) == Meaning(Map(b)) <==> MeaningOf(Lookup(a, key)) == MeaningOf(Lookup(b, key))
  {
    MeaningByKeys(a, b);
  }

  lemma TwoKeyMeaning(a: Fields, b: Fields, j: string, k: string)
    requires forall i | i != j && i != k :: Lookup(a, i) == Lookup(b, i)
    ensures Meaning(Map(a)) == Meaning(Map(b)) <==>
            MeaningOf(Lookup(a, j)) == MeaningOf(Lookup(b, j)) && MeaningOf(Lookup(a, k)) == MeaningOf(Lookup(b, k))
  {
    MeaningByKeys(a, b);
  }

  lemma ConfigsDiffer(m: Int32, n: Int32)
    requires Meaning(TimeSlicingConfig(m)) == Meaning(TimeSlicingConfig(n))
    ensures m == n
  {
    var a, b := TimeSlicingConfig(m).fields, TimeSlicingConfig(n).fields;
    MeaningByKeys(a, b);
    assert MeaningOf(Lookup(a, "name")) == MeaningOf(Lookup(b, "name"));
    SamePrefix("gpu-time-slicing-config-", Decimal(m), Decimal(n));
    DecimalInjective(m, n);
  }

  lemma BuiltDriver(start: Fields, s1: GpuSpec, s2: GpuSpec)
    ensures var d1, d2 := WithDriver(start, s1)[DRIVER], WithDriver(start, s2)[DRIVER];
            var v := Lookup(Sub(start, DRIVER), VERSION);
            Meaning(d1) == Meaning(d2) <==>
            MeaningOf(if SpecDriverVersion(s1) != "" then Some(Str(SpecDriverVersion(s1))) else v) ==
            MeaningOf(if SpecDriverVersion(s2) != "" then Some(Str(SpecDriverVersion(s2))) else v)
  {
    OneKeyMeaning(WithDriver(start, s1)[DRIVER].fields, WithDriver(start, s2)[DRIVER].fields, VERSION);
  }

  lemma BuiltPlugin(start: Fields, s1: GpuSpec, s2: GpuSpec)
    ensures var p1, p2 := Lookup(WithTimeSlicing(start, s1), DEVICE_PLUGIN),
                          Lookup(WithTimeSlicing(start, s2), DEVICE_PLUGIN);
            var c := Lookup(Sub(start, DEVICE_PLUGIN), CONFIG);
            MeaningOf(p1) == MeaningOf(p2) <==>
            MeaningOf(if s1.replicas.Some? then Some(TimeSlicingConfig(s1.replicas.value)) else c) ==
            MeaningOf(if s2.replicas.Some? then Some(TimeSlicingConfig(s2.replicas.value)) else c)
  {
    OneKeyMeaning(Sub(WithTimeSlicing(start, s1), DEVICE_PLUGIN),
                  Sub(WithTimeSlicing(start, s2), DEVICE_PLUGIN), CONFIG);
  }

  lemma BuiltKeys(start: Fields, s: GpuSpec)
    ensures var v := WithTimeSlicing(WithDriver(start, s), s);
            && Lookup(v, DRIVER) == Some(WithDriver(start, s)[DRIVER])
            && Lookup(v, DEVICE_PLUGIN) == Lookup(WithTimeSlicing(start, s), DEVICE_PLUGIN)
            && forall k | k != DRIVER && k != DEVICE_PLUGIN :: Lookup(v, k) == Lookup(start, k)
  {}

  /**
   * Two builds compare equal exactly when the effective driver versions and the effective
   * time-slicing configs agree, so an upgrade is skipped only when nothing would change.
   */
  lemma ChangeDetection(base: Fields, s1: GpuSpec, s2: GpuSpec, os: OsType)
    ensures ValuesEqual(MapOf(BuildValues(base, s1, os)), MapOf(BuildValues(base, s2, os))) <==>
            MeaningOf(EffectiveVersion(base, s1, os)) == MeaningOf(EffectiveVersion(base, s2, os))
            && MeaningOf(EffectiveConfig(base, s1, os)) == MeaningOf(EffectiveConfig(base, s2, os))
  {
    var start := StartValues(base, os);
    var v1, v2 := BuildValues(base, s1, os), BuildValues(base, s2, os);
    ValuesEqualDecides(MapOf(v1), MapOf(v2));
    BuiltKeys(start, s1);
    BuiltKeys(start, s2);
    TwoKeyMeaning(v1, v2, DRIVER, DEVICE_PLUGIN);
    BuiltDriver(start, s1, s2);
    BuiltPlugin(start, s1, s2);
  }

  lemma ConfigTellsReplicas(base: Fields, s1: GpuSpec, s2: GpuSpec, os: OsType)
    requires CONFIG !in Sub(base, DEVICE_PLUGIN)
    ensures MeaningOf(EffectiveConfig(base, s1, os)) == MeaningOf(EffectiveConfig(base, s2, os))
            <==> s1.replicas == s2.replicas
  {
    hide TimeSlicingConfig, Meaning;
    if s1.replicas.Some? && s2.replicas.Some?
       && MeaningOf(EffectiveConfig(base, s1, os)) == MeaningOf(EffectiveConfig(base, s2, os)) {
      ConfigsDiffer(s1.replicas.value, s2.replicas.value);
    }
  }

  /** With no time-slicing config in the base, the effective config is the replica count. */
  lemma ChangeDetectionByReplicas(base: Fields, s1: GpuSpec, s2: GpuSpec, os: OsType)
    requires CONFIG !in Sub(base, DEVICE_PLUGIN)
    ensures ValuesEqual(MapOf(BuildValues(base, s1, os)), MapOf(BuildValues(base, s2, os))) <==>
            MeaningOf(EffectiveVersion(base, s1, os)) == MeaningOf(EffectiveVersion(base, s2, os))
            && s1.replicas == s2.replicas
  {
    hide ValuesEqual, BuildValues, EffectiveVersion, EffectiveConfig, MeaningOf;
    ChangeDetection(base, s1, s2, os);
    ConfigTellsReplicas(base, s1, s2, os);
  }

  /** For a base whose default is a string or number, no override and an override equal to it agree. */
  lemma DefaultEqualsItsOverride(base: Fields, spec: GpuSpec)
    requires VERSION in Sub(base, DRIVER)
    requires var v := Sub(base, DRIVER)[VERSION];
             SpecDriverVersion(spec) != "" &&
             (v == Str(SpecDriverVersion(spec)) || (v.Float? && Decimal(v.f) == SpecDriverVersion(spec)))
    ensures ValuesEqual(MapOf(BuildValues(base, spec, GardenLinux)),
                        MapOf(BuildValues(base, spec.(driver := None), GardenLinux)))
  {
    ChangeDetection(base, spec, spec.(driver := None), GardenLinux);
  }

  lemma ConfigMapNamesDiffer(s1: GpuSpec, s2: GpuSpec)
    ensures TimeSlicingConfigMapName(s1) == TimeSlicingConfigMapName(s2) <==> s1.replicas == s2.replicas
    ensures TimeSlicingConfigMapName(s1) ==
            match s1.replicas case None => "" case Some(n) => "gpu-time-slicing-config-" + Decimal(n)
  {
    if s1.replicas.Some? && s2.replicas.Some?
       && TimeSlicingConfigMapName(s1) == TimeSlicingConfigMapName(s2) {
      SamePrefix("gpu-time-slicing-config-", Decimal(s1.replicas.value), Decimal(s2.replicas.value));
      DecimalInjective(s1.replicas.value, s2.replicas.value);
    }
  }
}
