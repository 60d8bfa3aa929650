/** values.go as written: Go maps on the heap, nested ones shared and updated in place. */
module ValuesHeap {
  import opened Text
  import opened Json
  import opened Values

  /** A Go map[string]any. What is nested below the second level is never written to. */
  class GoMap {
    var slots: map<string, Slot>

    constructor (slots: map<string, Slot>)
      ensures this.slots == slots
    {
      this.slots := slots;
    }
  }

  datatype Slot = Plain(v: Value) | Nested(m: GoMap)

  ghost function Children(values: GoMap): set<GoMap>
    reads values
  {
    set k | k in values.slots && values.slots[k].Nested? :: values.slots[k].m
  }

  ghost predicate Flat(m: GoMap)
    reads m
  {
    forall k | k in m.slots :: m.slots[k].Plain?
  }

  /** A two-level values map whose nested maps are not shared between keys. */
  ghost predicate Valid(values: GoMap)
    reads values, Children(values)
  {
    && values !in Children(values)
    && (forall m | m in Children(values) :: Flat(m))
    && (forall k | k in values.slots && values.slots[k].Plain? :: !values.slots[k].v.Map?)
    && (forall j, k | j in values.slots && k in values.slots && j != k
                      && values.slots[j].Nested? && values.slots[k].Nested? ::
          values.slots[j].m != values.slots[k].m)
  }

  ghost function Leaf(m: GoMap): Fields
    reads m
    requires Flat(m)
  {
    map k | k in m.slots :: m.slots[k].v
  }

  /** The JSON object the heap maps stand for. */
  ghost function Tree(values: GoMap): (t: Fields)
    reads values, Children(values)
    requires Valid(values)
  {
    map k | k in values.slots ::
      if values.slots[k].Plain? then values.slots[k].v else Map(Leaf(values.slots[k].m))
  }

  function AllPlain(fields: Fields): (slots: map<string, Slot>)
    ensures slots.Keys == fields.Keys && forall k | k in fields :: slots[k] == Plain(fields[k])
  {
    map k | k in fields :: Plain(fields[k])
  }

  /** The type assertion values[key].(map[string]any): None stands for nil. */
  method MapAt(values: GoMap, key: string) returns (m: Option<GoMap>)
    requires Valid(values)
    ensures m.Some? <==> key in values.slots && values.slots[key].Nested?
    ensures m.Some? ==> m.value == values.slots[key].m && m.value in Children(values)
  {
    if key in values.slots && values.slots[key].Nested? {
      m := Some(values.slots[key].m);
    } else {
      m := None;
    }
  }

  /** m[key] = v on a nested map. */
  method Put(m: GoMap, key: string, v: Value)
    requires Flat(m)
    modifies m
    ensures Flat(m) && Leaf(m) == old(Leaf(m))[key := v]
  {
    m.slots := m.slots[key := Plain(v)];
    assert Leaf(m) == old(Leaf(m))[key := v];
  }

  /** values[key] = m, where m is new or already sits under that key. */
  method Attach(values: GoMap, key: string, m: GoMap)
    requires Valid(values) && Flat(m) && m != values
    requires m in Children(values) ==> key in values.slots && values.slots[key] == Nested(m)
    modifies values
    ensures Valid(values) && m in Children(values)
    ensures Children(values) <= old(Children(values)) + {m}
    ensures Tree(values) == old(Tree(values))[key := Map(Leaf(m))]
  {
    values.slots := values.slots[key := Nested(m)];
    assert values.slots[key].m == m;
    assert Tree(values) == old(Tree(values))[key := Map(Leaf(m))];
  }

  method AddPlain(values: GoMap, key: string, v: Value)
    requires Valid(values) && key !in values.slots && !v.Map?
    modifies values
    ensures Valid(values) && Children(values) == old(Children(values))
    ensures Tree(values) == old(Tree(values))[key := v]
  {
    values.slots := values.slots[key := Plain(v)];
    forall m | m in old(Children(values)) ensures m in Children(values) {
      var k :| k in old(values.slots) && old(values.slots[k]) == Nested(m);
      assert values.slots[k] == Nested(m);
    }
    assert Children(values) == old(Children(values));
    assert Tree(values) == old(Tree(values))[key := v];
  }

  /** m[field] = v where m already sits under the key. */
  method PutChild(values: GoMap, key: string, m: GoMap, field: string, v: Value)
    requires Valid(values) && key in values.slots && values.slots[key] == Nested(m)
    modifies m
    ensures Valid(values) && unchanged(values)
    ensures Tree(values) == old(Tree(values))[key := Map(old(Leaf(m))[field := v])]
  {
    assert m in Children(values);
    Put(m, field, v);
    forall k | k in values.slots && k != key && values.slots[k].Nested?
      ensures Leaf(values.slots[k].m) == old(Leaf(values.slots[k].m))
    {
      assert values.slots[k].m in Children(values);
    }
    assert Tree(values) == old(Tree(values))[key := Map(old(Leaf(m))[field := v])];
  }

  /** m[field] = v and values[key] = m, where m is new or already sits under that key. */
  method PutAndAttach(values: GoMap, key: string, m: GoMap, field: string, v: Value)
    requires Valid(values) && Flat(m) && m != values
    requires m in Children(values) ==> key in values.slots && values.slots[key] == Nested(m)
    modifies values, m
    ensures Valid(values) && m in Children(values)
    ensures Children(values) <= old(Children(values)) + {m}
    ensures Tree(values) == old(Tree(values))[key := Map(old(Leaf(m))[field := v])]
  {
    ghost var was := Tree(values);
    Put(m, field, v);
    forall k | k in was && k != key ensures Tree(values)[k] == was[k] {
      if values.slots[k].Nested? { assert values.slots[k].m in Children(values); }
    }
    Attach(values, key, m);
    assert Tree(values) == was[key := Map(Leaf(m))];
  }

  /** The decoder's step for one key: an object becomes a map of its own. */
  method AddDecoded(values: GoMap, key: string, v: Value)
    requires Valid(values) && key !in values.slots
    modifies values
    ensures Valid(values) && fresh(Children(values) - old(Children(values)))
    ensures Tree(values) == old(Tree(values))[key := v]
  {
    if v.Map? {
      var m := NewMap(v.fields);
      Attach(values, key, m);
    } else {
      AddPlain(values, key, v);
    }
  }

  /** The maps the YAML decoder allocates for the parsed base. */
  method Decode(base: Fields) returns (values: GoMap)
    ensures Valid(values) && fresh(values) && fresh(Children(values))
    ensures Tree(values) == base
  {
    values := new GoMap(map[]);
    var todo := base.Keys;
    while todo != {}
      invariant Valid(values) && fresh(values) && fresh(Children(values)) && todo <= base.Keys
      invariant Tree(values) == base - todo
      decreases todo
    {
      var key :| key in todo;
      assert key !in Tree(values);
      AddDecoded(values, key, base[key]);
      todo := todo - {key};
      assert (base - (todo + {key}))[key := base[key]] == base - todo;
    }
  }

  method NewMap(fields: Fields) returns (m: GoMap)
    ensures fresh(m) && Flat(m) && Leaf(m) == fields
  {
    m := new GoMap(AllPlain(fields));
    assert Leaf(m) == fields;
  }

  method NormalizeDriverVersion(values: GoMap)
    requires Valid(values)
    modifies Children(values)
    ensures Valid(values) && unchanged(values)
    ensures Tree(values) == Normalized(old(Tree(values)))
  {
    var driver := MapAt(values, DRIVER);
    if driver.None? { return; }
    var d := driver.value;
    if VERSION in d.slots && d.slots[VERSION].v.Float? {
      PutChild(values, DRIVER, d, VERSION, Str(Decimal(d.slots[VERSION].v.f)));
    }
  }

  method ApplySpecOverrides(values: GoMap, spec: GpuSpec)
    requires Valid(values)
    modifies values, Children(values)
    ensures Valid(values) && fresh(Children(values) - old(Children(values)))
    ensures Tree(values) == WithDriver(old(Tree(values)), spec)
  {
    var found := MapAt(values, DRIVER);
    var driver: GoMap;
    if found.Some? {
      driver := found.value;
    } else {
      driver := NewMap(DEFAULT_DRIVER);
    }
    assert Leaf(driver) == DriverFields(Tree(values));
    var v := SpecDriverVersion(spec);
    if v != "" {
      PutAndAttach(values, DRIVER, driver, VERSION, Str(v));
    } else {
      Attach(values, DRIVER, driver);
    }
  }

  method ApplyTimeSlicingValues(values: GoMap, spec: GpuSpec)
    requires Valid(values)
    modifies values, Children(values)
    ensures Valid(values) && fresh(Children(values) - old(Children(values)))
    ensures Tree(values) == WithTimeSlicing(old(Tree(values)), spec)
  {
    hide TimeSlicingConfig;
    if spec.replicas.None? { return; }
    var found := MapAt(values, DEVICE_PLUGIN);
    var plugin: GoMap;
    if found.Some? {
      plugin := found.value;
    } else {
      plugin := NewMap(map[]);
    }
    assert Leaf(plugin) == Sub(Tree(values), DEVICE_PLUGIN);
    PutAndAttach(values, DEVICE_PLUGIN, plugin, CONFIG, TimeSlicingConfig(spec.replicas.value));
  }

  /** gardenLinuxBase on Garden Linux, an empty map otherwise; None is the error of a base that cannot be read. */
  method StartMaps(base: Option<Fields>, os: OsType) returns (r: Option<GoMap>)
    ensures r.None? <==> os.GardenLinux? && base.None?
    ensures r.Some? ==> fresh(r.value) && Valid(r.value) && fresh(Children(r.value))
    ensures r.Some? ==> Tree(r.value) == StartValues(if base.Some? then base.value else map[], os)
  {
    hide Normalized;
    if os.GardenLinux? {
      if base.None? { return None; }
      var values := Decode(base.value);
      NormalizeDriverVersion(values);
      r := Some(values);
    } else {
      var values := new GoMap(map[]);
      assert Tree(values) == map[];
      r := Some(values);
    }
  }

  /** BuildValues; None is its error. */
  method BuildValuesInPlace(base: Option<Fields>, spec: GpuSpec, os: OsType) returns (r: Option<GoMap>)
    ensures r.None? <==> os.GardenLinux? && base.None?
    ensures r.Some? ==> fresh(r.value) && Valid(r.value) && fresh(Children(r.value))
    ensures r.Some? ==>
              Tree(r.value) == BuildValues(if base.Some? then base.value else map[], spec, os)
  {
    hide StartValues, WithDriver, WithTimeSlicing;
    r := StartMaps(base, os);
    if r.Some? {
      ApplySpecOverrides(r.value, spec);
      ApplyTimeSlicingValues(r.value, spec);
    }
  }

  /** The maps handed over as JSON values. */
  method Export(values: GoMap) returns (fields: Fields)
    requires Valid(values)
    ensures fields == Tree(values)
  {
    fields := map k | k in values.slots ::
      match values.slots[k]
      case Plain(v) => v
      case Nested(m) => Map(map j | j in m.slots && m.slots[j].Plain? :: m.slots[j].v);
    ghost var t := Tree(values);
    forall k | k in values.slots ensures fields[k] == t[k] {
      if values.slots[k].Nested? {
        assert values.slots[k].m in Children(values);
        assert fields[k].fields == Leaf(values.slots[k].m);
      }
    }
    assert fields == t;
  }
}
