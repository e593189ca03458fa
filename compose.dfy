/**
 A model of the manifest operations of compose-joiner (lib/compose.js).

 A manifest is a docker-compose document after parsing: a JSON-like object,
 modelled as a map from top-level key to `Value`. Two shapes exist, told
 apart only by key presence: a legacy manifest keeps its services at the top
 level, a versioned one keeps them under the `services` key beside `version`.
 */
module Compose {

  /** A parsed YAML/JSON value. Numbers are carried, never computed on. */
  datatype Value =
    | Null
    | Bool(b: bool)
    | Num(n: real)
    | Str(s: string)
    | Arr(items: seq<Value>)
    | Obj(fields: map<string, Value>)

  /** A whole document: its top-level keys and their values. */
  type Manifest = map<string, Value>

  datatype Option<T> = None | Some(value: T)

  /** The outcome of a JavaScript expression that may throw a TypeError. */
  datatype Outcome<T> = Ok(value: T) | TypeError

  const ServicesKey: string := "services"
  const VersionKey: string := "version"

  /** `r` is the right-biased union of `a` and `b`: every key of either, `b` winning on collisions. */
  ghost predicate RightBiasedUnion(a: map<string, Value>, b: map<string, Value>, r: map<string, Value>)
  {
    && r.Keys == a.Keys + b.Keys
    && (forall k :: k in b ==> r[k] == b[k])
    && (forall k :: k in a && k !in b ==> r[k] == a[k])
  }

  /** The own enumerable properties that `Object.assign` copies out of `v`. */
  function OwnProps(v: Value): map<string, Value>
  {
    match v
    case Obj(fields) => fields
    case _ => map[]
  }

  /** `compose.services` used as an `Object.assign` source; an absent key reads as `undefined` and adds nothing. */
  function ServicesSource(m: Manifest): map<string, Value>
  {
    if ServicesKey in m then OwnProps(m[ServicesKey]) else map[]
  }

  /** Reading property `name` of `v`: `null` throws, a missing key is `undefined`. */
  function Property(v: Value, name: string): Outcome<Option<Value>>
  {
    match v
    case Null => TypeError
    case Obj(fields) => Ok(if name in fields then Some(fields[name]) else None)
    case _ => Ok(None)
  }

  // ---------------------------------------------------------------------------
  // update

  /** The service table of a legacy manifest: every top-level key except `version`. */
  function LegacyServices(m: Manifest): (s: map<string, Value>)
    ensures s.Keys == m.Keys - {VersionKey}
    ensures forall k :: k in s ==> s[k] == m[k]
  {
    map k | k in m && k != VersionKey :: m[k]
  }

  /** Converts or retags a manifest to `version`; the result is always versioned. */
  function Update(m: Manifest, version: Value): (r: Manifest)
    ensures ServicesKey in r && VersionKey in r && r[VersionKey] == version
    ensures ServicesKey !in m ==>
      && r.Keys == {ServicesKey, VersionKey}
      && r[ServicesKey].Obj?
      && r[ServicesKey].fields.Keys == m.Keys - {VersionKey}
      && (forall k :: k in r[ServicesKey].fields ==> r[ServicesKey].fields[k] == m[k])
    ensures ServicesKey in m ==>
      && r.Keys == m.Keys + {VersionKey}
      && (forall k :: k in m && k != VersionKey ==> r[k] == m[k])
  {
    if ServicesKey !in m then
      map[ServicesKey := Obj(LegacyServices(m)), VersionKey := version]
    else
      m[VersionKey := version]
  }

  /** `update` as the source runs it: a key filter, then a reduce that assigns into an accumulator. */
  method UpdateManifest(yamlData: Manifest, version: Value) returns (newYaml: Manifest)
    ensures newYaml == Update(yamlData, version)
  {
    if ServicesKey !in yamlData {
      var keys := yamlData.Keys - {VersionKey};
      var services: map<string, Value> := map[];
      while keys != {}
        invariant keys <= yamlData.Keys - {VersionKey}
        invariant services.Keys == (yamlData.Keys - {VersionKey}) - keys
        invariant forall k :: k in services ==> services[k] == yamlData[k]
        decreases keys
      {
        var service :| service in keys;
        services := services[service := yamlData[service]];
        keys := keys - {service};
      }
      assert services == LegacyServices(yamlData);
      newYaml := map[ServicesKey := Obj(services)];
    } else {
      newYaml := yamlData;
    }
    newYaml := newYaml[VersionKey := version];
  }

  /** Updating twice to the same version is the same as updating once. */
  lemma UpdateIdempotent(m: Manifest, version: Value)
    ensures Update(Update(m, version), version) == Update(m, version)
  {
  }

  /** `update` keeps the service table a lookup sees, except that a legacy manifest's stray `version` is dropped from it. */
  lemma UpdateKeepsServices(m: Manifest, version: Value)
    ensures ServicesKey in m ==> GetServices(Update(m, version)) == GetServices(m)
    ensures ServicesKey !in m ==> GetServices(Update(m, version)) == Obj(m - {VersionKey})
  {
  }

  /** The legacy conversion exercised by the repository's tests. */
  lemma UpdateLegacyScenario()
    ensures Update(map["myService" := Obj(map["name" := Str("hello")])], Str("2.3"))
         == map[VersionKey := Str("2.3"), ServicesKey := Obj(map["myService" := Obj(map["name" := Str("hello")])])]
  {
    var m := map["myService" := Obj(map["name" := Str("hello")])];
    assert LegacyServices(m) == m;
  }

  // ---------------------------------------------------------------------------
  // getServices and getService

  /** The service table: the `services` value when that key exists, else the whole manifest (stray `version` included). */
  function GetServices(m: Manifest): (r: Value)
    ensures ServicesKey in m ==> r == m[ServicesKey]
    ensures ServicesKey !in m ==> r.Obj? && r.fields.Keys == m.Keys && forall k :: k in m ==> r.fields[k] == m[k]
  {
    if ServicesKey in m then m[ServicesKey] else Obj(m)
  }

  /** One service by name, from the top level of a legacy manifest or from `services` otherwise. */
  function GetService(m: Manifest, serviceName: string): (r: Outcome<Option<Value>>)
    ensures ServicesKey !in m ==> r == Ok(if serviceName in m then Some(m[serviceName]) else None)
    ensures ServicesKey in m && m[ServicesKey].Null? ==> r == TypeError
    ensures ServicesKey in m && m[ServicesKey].Obj? ==>
      (r == Ok(None) <==> serviceName !in m[ServicesKey].fields)
  {
    if ServicesKey !in m then
      Ok(if serviceName in m then Some(m[serviceName]) else None)
    else
      Property(m[ServicesKey], serviceName)
  }

  /** `getService` looks the name up in exactly the table `getServices` returns. */
  lemma GetServiceAgreesWithGetServices(m: Manifest, serviceName: string)
    ensures GetService(m, serviceName) == Property(GetServices(m), serviceName)
  {
  }

  // ---------------------------------------------------------------------------
  // addService

  /** Adds the services of `fragment`; branches on `version`, not on `services`. */
  function AddService(m: Manifest, fragment: map<string, Value>): (r: Manifest)
    ensures VersionKey !in m ==> RightBiasedUnion(m, fragment, r)
    ensures VersionKey in m ==>
      && r.Keys == m.Keys + {ServicesKey}
      && (forall k :: k in m && k != ServicesKey ==> r[k] == m[k])
      && r[ServicesKey].Obj?
      && RightBiasedUnion(ServicesSource(m), fragment, r[ServicesKey].fields)
  {
    if VersionKey !in m then
      m + fragment
    else
      m[ServicesKey := Obj(ServicesSource(m) + fragment)]
  }

  /** Once added, a service is found by `getService`, provided the manifest's `services` key does not outrun its `version` key. */
  lemma AddServiceThenGet(m: Manifest, fragment: map<string, Value>, name: string)
    requires name in fragment && name != ServicesKey
    requires VersionKey !in m ==> ServicesKey !in m && ServicesKey !in fragment
    ensures GetService(AddService(m, fragment), name) == Ok(Some(fragment[name]))
  {
  }

  /** Because the branch is on `version`, a versioned manifest without `version` gets the new service at the top level, where `getService` does not look. */
  lemma AddServiceWithoutVersionMissesServices()
    ensures var m := map[ServicesKey := Obj(map[])];
            var added := AddService(m, map["web" := Obj(map[])]);
            && added["web"] == Obj(map[])
            && added[ServicesKey] == Obj(map[])
            && GetService(added, "web") == Ok(None)
  {
  }

  // ---------------------------------------------------------------------------
  // removeService

  /** What `removeService` returns, on values: delete from `services` when that key exists, else from the top level. */
  function RemoveServiceSpec(m: Manifest, name: string): (r: Outcome<Manifest>)
    ensures ServicesKey !in m ==>
      && r.Ok?
      && r.value.Keys == m.Keys - {name}
      && (forall k :: k in r.value ==> r.value[k] == m[k])
    ensures ServicesKey in m && m[ServicesKey].Null? ==> r == TypeError
    ensures ServicesKey in m && m[ServicesKey].Obj? ==>
      && r.Ok?
      && r.value.Keys == m.Keys
      && (forall k :: k in m && k != ServicesKey ==> r.value[k] == m[k])
      && r.value[ServicesKey].Obj?
      && r.value[ServicesKey].fields.Keys == m[ServicesKey].fields.Keys - {name}
      && (forall k :: k in r.value[ServicesKey].fields ==> r.value[ServicesKey].fields[k] == m[ServicesKey].fields[k])
  {
    if ServicesKey !in m then
      Ok(m - {name})
    else
      match m[ServicesKey]
      case Null => TypeError
      case Obj(services) => Ok(m[ServicesKey := Obj(services - {name})])
      case _ => Ok(m)
  }

  /** Removing a name that is not a service is a no-op. */
  lemma RemoveMissingServiceIsNoOp(m: Manifest, name: string)
    requires GetService(m, name) == Ok(None)
    ensures RemoveServiceSpec(m, name) == Ok(m)
  {
    if ServicesKey in m && m[ServicesKey].Obj? {
      var services := m[ServicesKey].fields;
      assert services - {name} == services;
      assert m[ServicesKey := Obj(services)] == m;
    } else if ServicesKey !in m {
      assert m - {name} == m;
    }
  }

  /** Adding a fresh service and removing it again gives back the manifest, for a legacy manifest without `version`. */
  lemma RemoveAfterAddLegacy(m: Manifest, name: string, definition: Value)
    requires VersionKey !in m && ServicesKey !in m
    requires name !in m && name != ServicesKey
    ensures RemoveServiceSpec(AddService(m, map[name := definition]), name) == Ok(m)
  {
    var added := AddService(m, map[name := definition]);
    assert ServicesKey !in added;
    assert added - {name} == m;
  }

  /** Adding a fresh service and removing it again gives back the manifest, for a versioned manifest with a `services` object. */
  lemma RemoveAfterAddVersioned(m: Manifest, name: string, definition: Value)
    requires VersionKey in m && ServicesKey in m && m[ServicesKey].Obj?
    requires name !in m[ServicesKey].fields
    ensures RemoveServiceSpec(AddService(m, map[name := definition]), name) == Ok(m)
  {
    var services := m[ServicesKey].fields;
    var added := AddService(m, map[name := definition]);
    assert ServicesSource(m) + map[name := definition] == services[name := definition];
    assert added == m[ServicesKey := Obj(services[name := definition])];
    assert services[name := definition] - {name} == services;
    assert added[ServicesKey := Obj(services)] == m[ServicesKey := Obj(services)] == m;
  }

  /** The object stored under a manifest's `services` key, shared by every shallow copy of that manifest. */
  class ServiceTable {
    var entries: map<string, Value>

    constructor (entries: map<string, Value>)
      ensures this.entries == entries
    {
      this.entries := entries;
    }
  }

  /** A manifest as a heap object: its top-level keys other than `services`, and a reference to the `services` object. */
  class Document {
    var fields: map<string, Value>
    var services: ServiceTable?

    ghost predicate Valid()
      reads this
    {
      ServicesKey !in fields
    }

    /** The manifest value this object currently denotes. */
    function Snapshot(): (m: Manifest)
      reads this, services
      requires Valid()
      ensures (ServicesKey in m) <==> services != null
      ensures services != null ==> m[ServicesKey] == Obj(services.entries)
      ensures m.Keys - {ServicesKey} == fields.Keys
      ensures forall k :: k in fields ==> m[k] == fields[k]
    {
      if services == null then fields else fields[ServicesKey := Obj(services.entries)]
    }

    /** `Object.assign({}, compose)`: a new object holding the same top-level references. */
    constructor ShallowCopy(fields: map<string, Value>, services: ServiceTable?)
      requires ServicesKey !in fields
      ensures Valid()
      ensures this.fields == fields && this.services == services
    {
      this.fields := fields;
      this.services := services;
    }
  }

  /**
   `removeService`: a shallow copy, then a `delete`. When the manifest has a
   `services` object, the copy shares it, so the caller's manifest loses the
   service as well.
   */
  method RemoveService(compose: Document, unwantedServiceName: string) returns (newCompose: Document)
    requires compose.Valid()
    modifies compose.services
    ensures fresh(newCompose) && newCompose.Valid()
    ensures newCompose.services == compose.services
    ensures RemoveServiceSpec(old(compose.Snapshot()), unwantedServiceName) == Ok(newCompose.Snapshot())
    ensures compose.services != null ==> compose.Snapshot() == newCompose.Snapshot()
    ensures compose.services == null ==> compose.Snapshot() == old(compose.Snapshot())
  {
    ghost var before := compose.Snapshot();
    newCompose := new Document.ShallowCopy(compose.fields, compose.services);
    if compose.services != null {
      ghost var entries := compose.services.entries;
      assert before == compose.fields[ServicesKey := Obj(entries)];
      newCompose.services.entries := newCompose.services.entries - {unwantedServiceName};
      assert newCompose.Snapshot() == before[ServicesKey := Obj(entries - {unwantedServiceName})];
    } else {
      assert before == compose.fields;
      newCompose.fields := newCompose.fields - {unwantedServiceName};
    }
  }

  // ---------------------------------------------------------------------------
  // join

  /** The service union `join` builds from `composeA.services` and `composeB.services`. */
  function JoinedServices(a: Manifest, b: Manifest): (s: map<string, Value>)
    ensures RightBiasedUnion(ServicesSource(a), ServicesSource(b), s)
  {
    ServicesSource(a) + ServicesSource(b)
  }

  /** Right-biased shallow union of two manifests; a non-empty service union replaces `services`. */
  function Join(a: Manifest, b: Manifest): (r: Manifest)
    ensures ServicesKey !in a && ServicesKey !in b ==> ServicesKey !in r
  {
    var merged := a + b;
    var services := JoinedServices(a, b);
    if |services| > 0 then merged[ServicesKey := Obj(services)] else merged
  }

  /** Every top-level key other than `services` comes from the right-biased union of the two manifests. */
  lemma JoinTopLevel(a: Manifest, b: Manifest)
    ensures RightBiasedUnion(a - {ServicesKey}, b - {ServicesKey}, Join(a, b) - {ServicesKey})
    ensures ServicesKey !in a && ServicesKey !in b ==> RightBiasedUnion(a, b, Join(a, b))
  {
  }

  /** A non-empty service union becomes `services`; an empty one leaves whichever `services` value the top-level union kept. */
  lemma JoinServicesKey(a: Manifest, b: Manifest)
    ensures |JoinedServices(a, b)| > 0 ==> ServicesKey in Join(a, b) && Join(a, b)[ServicesKey] == Obj(JoinedServices(a, b))
    ensures |JoinedServices(a, b)| == 0 ==>
      && (ServicesKey in Join(a, b) <==> ServicesKey in a || ServicesKey in b)
      && (ServicesKey in b ==> Join(a, b)[ServicesKey] == b[ServicesKey])
      && (ServicesKey in a && ServicesKey !in b ==> Join(a, b)[ServicesKey] == a[ServicesKey])
  {
  }

  /** The version of a join is the second manifest's when it has one, else the first's. */
  lemma JoinVersion(a: Manifest, b: Manifest)
    ensures VersionKey in b ==> Join(a, b)[VersionKey] == b[VersionKey]
    ensures VersionKey !in b && VersionKey in a ==> Join(a, b)[VersionKey] == a[VersionKey]
    ensures VersionKey !in a && VersionKey !in b ==> VersionKey !in Join(a, b)
  {
  }

  /** When the second manifest has a `services` object holding `name`, `getService` on the join yields its definition. */
  lemma JoinServiceRightBiased(a: Manifest, b: Manifest, name: string)
    requires ServicesKey in b && b[ServicesKey].Obj? && name in b[ServicesKey].fields
    ensures GetService(Join(a, b), name) == GetService(b, name)
  {
  }

  /** Two versioned manifests: a service only the first one defines survives the join. */
  lemma JoinKeepsLeftServices(a: Manifest, b: Manifest, name: string)
    requires ServicesKey in a && a[ServicesKey].Obj? && name in a[ServicesKey].fields
    requires name !in ServicesSource(b)
    ensures GetService(Join(a, b), name) == GetService(a, name)
  {
  }

  /** A legacy second manifest keeps its services at the top level of the join; `getService` still answers from the first manifest's `services`. */
  lemma JoinLegacyRightStaysTopLevel()
    ensures var a := map[VersionKey := Str("2"), ServicesKey := Obj(map["web" := Str("a")])];
            var b := map["web" := Str("b")];
            var r := Join(a, b);
            && r["web"] == Str("b")
            && GetService(r, "web") == Ok(Some(Str("a")))
            && GetService(b, "web") == Ok(Some(Str("b")))
  {
  }

  /** The join of two versioned manifests exercised by the repository's tests. */
  lemma JoinVersionedScenario()
    ensures var hello := Obj(map["name" := Str("hello")]);
            var world := Obj(map["name" := Str("world")]);
            Join(map[VersionKey := Str("2"), ServicesKey := Obj(map["myService" := hello])],
                 map[VersionKey := Str("2.2"), ServicesKey := Obj(map["myOtherService" := world])])
            == map[VersionKey := Str("2.2"), ServicesKey := Obj(map["myService" := hello, "myOtherService" := world])]
  {
    var hello := Obj(map["name" := Str("hello")]);
    var world := Obj(map["name" := Str("world")]);
    var a := map[VersionKey := Str("2"), ServicesKey := Obj(map["myService" := hello])];
    var b := map[VersionKey := Str("2.2"), ServicesKey := Obj(map["myOtherService" := world])];
    var services := map["myService" := hello, "myOtherService" := world];
    assert ServicesSource(a) + ServicesSource(b) == services;
    assert a + b == b;
    assert b[ServicesKey := Obj(services)] == map[VersionKey := Str("2.2"), ServicesKey := Obj(services)];
  }
}
