/** The typed view of persisted resources, requests and limits (src/record_codec.cpp:37-124, 148-425,
    653-728, 843-875, 1000-1007): what the engine knows of a record stands in its columns, and whatever the
    engine model leaves out travels beside it as the columns it came in. */
module InventoryCodec {
  import opened Prelude
  import opened Records
  import opened Planning
  import opened Codec
  import opened RecordCodec

  // ---------------------------------------------------------------- columns

  function At(c: seq<Value>, i: nat): Value { if i < |c| then c[i] else Nil }

  function NatOf(v: Value): nat { if v.Num? then v.n else 0 }

  function IdOf(v: Value): U64 { if v.Num? && v.n < TWO_64 then v.n else 0 }

  function WordOf(v: Value): U32 { if v.Num? && v.n < TWO_32 then v.n else 0 }

  function BitOf(v: Value): bool { v == Num(1) }

  function StringOf(v: Value): string { if v.Str? then TextOf(v.s) else "" }

  function ListOf(v: Value): seq<Value> { if v.Items? then v.vs else [] }

  function TextItem(text: string): Value { Str(BytesOf(text)) }

  function IdItems(ids: seq<U64>): Value {
    Items(seq(|ids|, i requires 0 <= i < |ids| => Num(ids[i])))
  }

  function ItemIds(v: Value): seq<U64> {
    var vs := ListOf(v);
    seq(|vs|, i requires 0 <= i < |vs| => IdOf(vs[i]))
  }

  function TextItems(texts: seq<string>): Value {
    Items(seq(|texts|, i requires 0 <= i < |texts| => TextItem(texts[i])))
  }

  function ItemTexts(v: Value): seq<string> {
    var vs := ListOf(v);
    seq(|vs|, i requires 0 <= i < |vs| => StringOf(vs[i]))
  }

  function OptionItem(id: Option<U64>): Value {
    match id
    case None => Nothing
    case Some(x) => Just(Num(x))
  }

  function ItemOption(v: Value): Option<U64> { if v.Just? then Some(IdOf(v.v)) else None }

  /** Capability entries in ascending order of identity, with their names. */
  function TagItems(ids: set<U64>, names: seq<Value>): Value {
    var keys := SortedKeys(ids);
    Items(seq(|keys|, i requires 0 <= i < |keys| => Row([Num(keys[i]), At(names, i)])))
  }

  function ItemTags(v: Value): set<U64> { set x | x in ListOf(v) :: IdOf(At(Columns(x), 0)) }

  function ItemNames(v: Value): seq<Value> {
    var vs := ListOf(v);
    seq(|vs|, i requires 0 <= i < |vs| => At(Columns(vs[i]), 1))
  }

  lemma IdsBack(ids: seq<U64>)
    ensures ItemIds(IdItems(ids)) == ids
  {
  }

  lemma StringBack(text: string)
    requires Bytewise(text)
    ensures StringOf(TextItem(text)) == text
  {
    TextBack(text);
  }

  lemma TextsBack(texts: seq<string>)
    requires forall t :: t in texts ==> Bytewise(t)
    ensures ItemTexts(TextItems(texts)) == texts
  {
    forall i | 0 <= i < |texts| ensures StringOf(TextItem(texts[i])) == texts[i] {
      StringBack(texts[i]);
    }
  }

  lemma TagsBack(ids: set<U64>, names: seq<Value>)
    requires |names| == |SortedKeys(ids)|
    ensures ItemTags(TagItems(ids, names)) == ids && ItemNames(TagItems(ids, names)) == names
  {
    hide Row, Columns;
    var keys, vs := SortedKeys(ids), ListOf(TagItems(ids, names));
    forall i | 0 <= i < |keys| ensures Columns(vs[i]) == [Num(keys[i]), names[i]] {
      RowColumns([Num(keys[i]), At(names, i)]);
    }
    forall id ensures id in ItemTags(TagItems(ids, names)) <==> id in ids {
      SortedKeysExact(ids, id);
      if id in ids {
        var i :| 0 <= i < |keys| && keys[i] == id;
        assert vs[i] in vs;
      }
    }
  }

  // ---------------------------------------------------------------- codes

  function HealthCode(h: HealthState): nat {
    match h
    case HealthUnknown => 0
    case Healthy => 1
    case Degraded => 2
    case Unhealthy => 3
  }

  function HealthOf(code: nat): HealthState {
    if code == 0 then HealthUnknown else if code == 1 then Healthy else if code == 2 then Degraded else Unhealthy
  }

  function ReadinessCode(r: ReadinessState): nat {
    match r
    case ReadyUnknown => 0
    case Ready => 1
    case NotReady => 2
    case Unsupported => 3
  }

  function ReadinessOf(code: nat): ReadinessState {
    if code == 0 then ReadyUnknown else if code == 1 then Ready else if code == 2 then NotReady else Unsupported
  }

  function LifecycleCode(l: Lifecycle): nat {
    match l
    case Registered => 0
    case Current => 1
    case Retired => 2
    case Lost => 3
  }

  function LifecycleOf(code: nat): Lifecycle {
    if code == 0 then Registered else if code == 1 then Current else if code == 2 then Retired else Lost
  }

  function ScopeCode(scope: Scope): nat {
    match scope
    case Host => 0
    case NumaDomain => 1
    case RootComplex => 2
    case Rack => 3
    case Cluster => 4
  }

  function ScopeOf(code: nat): Scope {
    if code == 0 then Host
    else if code == 1 then NumaDomain
    else if code == 2 then RootComplex
    else if code == 3 then Rack
    else Cluster
  }

  function RequestCode(state: RequestState): nat {
    match state
    case Submitted => 0
    case Placed => 1
    case RequestCompleted => 2
    case RequestFailed => 3
    case RequestCancelled => 4
    case NoPlacement => 5
  }

  function RequestStateOf(code: nat): RequestState {
    if code == 0 then Submitted
    else if code == 1 then Placed
    else if code == 2 then RequestCompleted
    else if code == 3 then RequestFailed
    else if code == 4 then RequestCancelled
    else NoPlacement
  }

  // ---------------------------------------------------------------- parts of a resource

  /** Domain identities with their names, and whether the topology was supplied. */
  function TopologyColumns(t: Topology, notes: seq<Value>): seq<Value> {
    [Row([Num(t.host), At(notes, 0)]), Row([Num(t.numa), At(notes, 1)]), Row([Num(t.rootComplex), At(notes, 2)]),
     Row([Num(t.rack), At(notes, 3)]), Row([Num(t.cluster), At(notes, 4)]), At(notes, 5)]
  }

  function Inner(c: seq<Value>, i: nat, j: nat): Value { At(Columns(At(c, i)), j) }

  function TopologyOf(c: seq<Value>): Topology {
    Topology(IdOf(Inner(c, 0, 0)), IdOf(Inner(c, 1, 0)), IdOf(Inner(c, 2, 0)), IdOf(Inner(c, 3, 0)),
             IdOf(Inner(c, 4, 0)))
  }

  function TopologyNotes(c: seq<Value>): seq<Value> {
    [Inner(c, 0, 1), Inner(c, 1, 1), Inner(c, 2, 1), Inner(c, 3, 1), Inner(c, 4, 1), At(c, 5)]
  }

  lemma TopologyBack(t: Topology, notes: seq<Value>)
    requires |notes| == 6
    ensures var c := Columns(Row(TopologyColumns(t, notes))); TopologyOf(c) == t && TopologyNotes(c) == notes
  {
    hide Row, Columns;
    RowColumns(TopologyColumns(t, notes));
    RowColumns([Num(t.host), At(notes, 0)]);
    RowColumns([Num(t.numa), At(notes, 1)]);
    RowColumns([Num(t.rootComplex), At(notes, 2)]);
    RowColumns([Num(t.rack), At(notes, 3)]);
    RowColumns([Num(t.cluster), At(notes, 4)]);
  }

  /** An accelerator with its model text, its two version words and its root complex. */
  function AcceleratorRow(a: Accelerator, notes: seq<Value>): Value {
    Row([Num(a.id), At(notes, 0), Num(a.memory), At(notes, 1), At(notes, 2), At(notes, 3)])
  }

  function AcceleratorOf(v: Value): Accelerator {
    var c := Columns(v);
    Accelerator(IdOf(At(c, 0)), IdOf(At(c, 2)))
  }

  function AcceleratorNotes(v: Value): seq<Value> {
    var c := Columns(v);
    [At(c, 1), At(c, 3), At(c, 4), At(c, 5)]
  }

  lemma AcceleratorBack(a: Accelerator, notes: seq<Value>)
    requires |notes| == 4
    ensures AcceleratorOf(AcceleratorRow(a, notes)) == a && AcceleratorNotes(AcceleratorRow(a, notes)) == notes
  {
    hide Row, Columns;
    RowColumns([Num(a.id), At(notes, 0), Num(a.memory), At(notes, 1), At(notes, 2), At(notes, 3)]);
  }

  function AcceleratorItems(xs: seq<Accelerator>, notes: seq<seq<Value>>): Value
    requires |notes| == |xs|
  {
    Items(seq(|xs|, i requires 0 <= i < |xs| => AcceleratorRow(xs[i], notes[i])))
  }

  function ItemAccelerators(v: Value): seq<Accelerator> {
    var vs := ListOf(v);
    seq(|vs|, i requires 0 <= i < |vs| => AcceleratorOf(vs[i]))
  }

  function ItemAcceleratorNotes(v: Value): seq<seq<Value>> {
    var vs := ListOf(v);
    seq(|vs|, i requires 0 <= i < |vs| => AcceleratorNotes(vs[i]))
  }

  lemma AcceleratorsBack(xs: seq<Accelerator>, notes: seq<seq<Value>>)
    requires |notes| == |xs| && forall n :: n in notes ==> |n| == 4
    ensures ItemAccelerators(AcceleratorItems(xs, notes)) == xs
    ensures ItemAcceleratorNotes(AcceleratorItems(xs, notes)) == notes
  {
    hide AcceleratorRow, AcceleratorOf, AcceleratorNotes;
    forall i | 0 <= i < |xs|
      ensures AcceleratorOf(AcceleratorRow(xs[i], notes[i])) == xs[i]
      ensures AcceleratorNotes(AcceleratorRow(xs[i], notes[i])) == notes[i]
    {
      AcceleratorBack(xs[i], notes[i]);
    }
  }

  /** A model descriptor with its context window, its tool flag and its modalities. */
  function ModelItem(m: Option<ModelDescriptor>, notes: seq<Value>): Value {
    match m
    case None => Nothing
    case Some(x) =>
      Just(Row([Num(x.id), TextItem(x.version), At(notes, 0), At(notes, 1), Num(Bit(x.resident)), At(notes, 2)]))
  }

  function ItemModel(v: Value): Option<ModelDescriptor> {
    if !v.Just? then None
    else
      var c := Columns(v.v);
      Some(ModelDescriptor(IdOf(At(c, 0)), StringOf(At(c, 1)), BitOf(At(c, 4))))
  }

  function ItemModelNotes(v: Value): seq<Value> {
    if !v.Just? then []
    else
      var c := Columns(v.v);
      [At(c, 2), At(c, 3), At(c, 5)]
  }

  lemma ModelBack(m: Option<ModelDescriptor>, notes: seq<Value>)
    requires |notes| == (if m.Some? then 3 else 0) && (m.Some? ==> Bytewise(m.value.version))
    ensures ItemModel(ModelItem(m, notes)) == m && ItemModelNotes(ModelItem(m, notes)) == notes
  {
    hide Row, Columns;
    if m.Some? {
      var x := m.value;
      StringBack(x.version);
      RowColumns([Num(x.id), TextItem(x.version), At(notes, 0), At(notes, 1), Num(Bit(x.resident)), At(notes, 2)]);
    }
  }

  function SimulatorItem(s: Option<SimulatorDescriptor>): Value {
    match s
    case None => Nothing
    case Some(x) => Just(Row([Num(x.id), TextItem(x.version), TextItems(x.scenarios), Num(x.maxSessions)]))
  }

  function ItemSimulator(v: Value): Option<SimulatorDescriptor> {
    if !v.Just? then None
    else
      var c := Columns(v.v);
      Some(SimulatorDescriptor(IdOf(At(c, 0)), StringOf(At(c, 1)), ItemTexts(At(c, 2)), WordOf(At(c, 3))))
  }

  lemma SimulatorBack(s: Option<SimulatorDescriptor>)
    requires s.Some? ==> Bytewise(s.value.version) && forall t :: t in s.value.scenarios ==> Bytewise(t)
    ensures ItemSimulator(SimulatorItem(s)) == s
  {
    hide Row, Columns, TextItems, ItemTexts;
    if s.Some? {
      var x := s.value;
      StringBack(x.version);
      TextsBack(x.scenarios);
      RowColumns([Num(x.id), TextItem(x.version), TextItems(x.scenarios), Num(x.maxSessions)]);
    }
  }

  /** A dataset descriptor with its digest and its size. */
  function DatasetItem(d: Option<DatasetDescriptor>, notes: seq<Value>): Value {
    match d
    case None => Nothing
    case Some(x) => Just(Row([Num(x.id), Num(x.version), At(notes, 0), At(notes, 1)]))
  }

  function ItemDataset(v: Value): Option<DatasetDescriptor> {
    if !v.Just? then None
    else
      var c := Columns(v.v);
      Some(DatasetDescriptor(IdOf(At(c, 0)), IdOf(At(c, 1))))
  }

  function ItemDatasetNotes(v: Value): seq<Value> {
    if !v.Just? then []
    else
      var c := Columns(v.v);
      [At(c, 2), At(c, 3)]
  }

  lemma DatasetBack(d: Option<DatasetDescriptor>, notes: seq<Value>)
    requires |notes| == if d.Some? then 2 else 0
    ensures ItemDataset(DatasetItem(d, notes)) == d && ItemDatasetNotes(DatasetItem(d, notes)) == notes
  {
    hide Row, Columns;
    if d.Some? {
      RowColumns([Num(d.value.id), Num(d.value.version), At(notes, 0), At(notes, 1)]);
    }
  }

  /** An environment descriptor with its eligibility token. */
  function EnvironmentItem(e: Option<EnvironmentDescriptor>, notes: seq<Value>): Value {
    match e
    case None => Nothing
    case Some(x) =>
      Just(Row([Num(x.id), TextItem(x.imageDigest), Num(x.virtualEnvironment), Num(x.physicalEnvironment),
                At(notes, 0)]))
  }

  function ItemEnvironment(v: Value): Option<EnvironmentDescriptor> {
    if !v.Just? then None
    else
      var c := Columns(v.v);
      Some(EnvironmentDescriptor(IdOf(At(c, 0)), StringOf(At(c, 1)), IdOf(At(c, 2)), IdOf(At(c, 3))))
  }

  function ItemEnvironmentNotes(v: Value): seq<Value> {
    if !v.Just? then [] else [At(Columns(v.v), 4)]
  }

  lemma EnvironmentBack(e: Option<EnvironmentDescriptor>, notes: seq<Value>)
    requires |notes| == (if e.Some? then 1 else 0) && (e.Some? ==> Bytewise(e.value.imageDigest))
    ensures ItemEnvironment(EnvironmentItem(e, notes)) == e
    ensures ItemEnvironmentNotes(EnvironmentItem(e, notes)) == notes
  {
    hide Row, Columns;
    if e.Some? {
      var x := e.value;
      StringBack(x.imageDigest);
      RowColumns([Num(x.id), TextItem(x.imageDigest), Num(x.virtualEnvironment), Num(x.physicalEnvironment),
                  At(notes, 0)]);
    }
  }

  // ---------------------------------------------------------------- resources

  /** A resource as it is stored. `texts` are name, provenance, health detail, labels and authority detail;
      `locality` are the resident models and the colocated simulators. */
  datatype StoredResource = StoredResource(
    resource: Resource,
    texts: seq<Value>,
    capabilities: seq<Value>,
    topology: seq<Value>,
    locality: seq<Value>,
    accelerators: seq<seq<Value>>,
    model: seq<Value>,
    dataset: seq<Value>,
    environment: seq<Value>)

  /** Text has bytes, and every note belongs to something. */
  ghost predicate ResourceWritable(s: StoredResource) {
    var ad := s.resource.ad;
    && |s.texts| == 5 && |s.capabilities| == |SortedKeys(ad.capabilities)| && |s.topology| == 6 && |s.locality| == 2
    && |s.accelerators| == |ad.accelerators| && (forall n :: n in s.accelerators ==> |n| == 4)
    && |s.model| == (if ad.model.Some? then 3 else 0) && (ad.model.Some? ==> Bytewise(ad.model.value.version))
    && (ad.simulator.Some? ==>
          Bytewise(ad.simulator.value.version) && forall t :: t in ad.simulator.value.scenarios ==> Bytewise(t))
    && |s.dataset| == (if ad.dataset.Some? then 2 else 0)
    && |s.environment| == (if ad.environment.Some? then 1 else 0)
    && (ad.environment.Some? ==> Bytewise(ad.environment.value.imageDigest))
    && Bytewise(ad.tenant)
  }

  function AdvertisedColumns(s: StoredResource): seq<Value>
    requires |s.accelerators| == |s.resource.ad.accelerators|
  {
    var ad := s.resource.ad;
    [Num(ad.id), Num(ClassCode(ad.resourceClass)), At(s.texts, 0), Num(ad.worker), Num(ad.boot), At(s.texts, 1),
     Num(Bit(ad.sharing.Exclusive?)), TagItems(ad.capabilities, s.capabilities),
     Num(ad.slots), Num(ad.memory), Num(ad.maxSessions), Num(ad.occupancy), Num(HealthCode(ad.health)),
     At(s.texts, 2), Num(ReadinessCode(ad.readiness)), Row(TopologyColumns(ad.topology, s.topology)),
     Row([IdItems(ad.localDatasets), At(s.locality, 0), At(s.locality, 1)]),
     AcceleratorItems(ad.accelerators, s.accelerators), ModelItem(ad.model, s.model), SimulatorItem(ad.simulator),
     DatasetItem(ad.dataset, s.dataset), EnvironmentItem(ad.environment, s.environment), TextItem(ad.tenant)]
  }

  function TrackedColumns(s: StoredResource): seq<Value> {
    var r := s.resource;
    [At(s.texts, 3), Num(LifecycleCode(r.lifecycle)), Num(r.generation), Num(r.healthGeneration),
     Num(r.capacityGeneration), Num(r.stateSequence), Num(r.validatedEpoch), Num(Bit(r.authoritative)),
     At(s.texts, 4), Num(r.reserved)]
  }

  function ResourceRow(s: StoredResource): Value
    requires |s.accelerators| == |s.resource.ad.accelerators|
  {
    Row(AdvertisedColumns(s) + TrackedColumns(s))
  }

  function AdvertisementOf(c: seq<Value>): Advertisement {
    Advertisement(
      IdOf(At(c, 0)), ClassOf(NatOf(At(c, 1))), IdOf(At(c, 3)), IdOf(At(c, 4)),
      if BitOf(At(c, 6)) then Exclusive else Shared, ItemTags(At(c, 7)), WordOf(At(c, 8)), IdOf(At(c, 9)),
      WordOf(At(c, 10)), WordOf(At(c, 11)), HealthOf(NatOf(At(c, 12))), ReadinessOf(NatOf(At(c, 14))),
      TopologyOf(Columns(At(c, 15))), ItemIds(Inner(c, 16, 0)), ItemAccelerators(At(c, 17)), ItemModel(At(c, 18)),
      ItemSimulator(At(c, 19)), ItemDataset(At(c, 20)), ItemEnvironment(At(c, 21)), StringOf(At(c, 22)))
  }

  function ResourceOf(c: seq<Value>): Resource {
    Resource(AdvertisementOf(c), LifecycleOf(NatOf(At(c, 24))), NatOf(At(c, 25)), NatOf(At(c, 26)), NatOf(At(c, 27)),
             NatOf(At(c, 28)), NatOf(At(c, 29)), BitOf(At(c, 30)), WordOf(At(c, 32)))
  }

  function ResourceOfColumns(c: seq<Value>): StoredResource {
    StoredResource(
      ResourceOf(c), [At(c, 2), At(c, 5), At(c, 13), At(c, 23), At(c, 31)], ItemNames(At(c, 7)),
      TopologyNotes(Columns(At(c, 15))), [Inner(c, 16, 1), Inner(c, 16, 2)], ItemAcceleratorNotes(At(c, 17)),
      ItemModelNotes(At(c, 18)), ItemDatasetNotes(At(c, 20)), ItemEnvironmentNotes(At(c, 21)))
  }

  function ResourceOfRow(v: Value): StoredResource { ResourceOfColumns(Columns(v)) }

  /** Which columns hold the parts. */
  lemma PartColumns(s: StoredResource, c: seq<Value>)
    requires |s.accelerators| == |s.resource.ad.accelerators| && c == AdvertisedColumns(s) + TrackedColumns(s)
    ensures var ad := s.resource.ad;
            && At(c, 7) == TagItems(ad.capabilities, s.capabilities)
            && At(c, 15) == Row(TopologyColumns(ad.topology, s.topology))
            && At(c, 16) == Row([IdItems(ad.localDatasets), At(s.locality, 0), At(s.locality, 1)])
            && At(c, 17) == AcceleratorItems(ad.accelerators, s.accelerators)
            && At(c, 18) == ModelItem(ad.model, s.model)
            && At(c, 19) == SimulatorItem(ad.simulator) && At(c, 20) == DatasetItem(ad.dataset, s.dataset)
            && At(c, 21) == EnvironmentItem(ad.environment, s.environment) && At(c, 22) == TextItem(ad.tenant)
  {
    hide Row, Columns, TagItems, TopologyColumns, AcceleratorItems, ModelItem, SimulatorItem, DatasetItem,
         EnvironmentItem, IdItems, TextItem;
  }

  /** The parts come back. */
  lemma PartsBack(s: StoredResource, c: seq<Value>)
    requires ResourceWritable(s) && c == AdvertisedColumns(s) + TrackedColumns(s)
    ensures var ad := s.resource.ad;
            && ItemTags(At(c, 7)) == ad.capabilities && ItemNames(At(c, 7)) == s.capabilities
            && TopologyOf(Columns(At(c, 15))) == ad.topology && TopologyNotes(Columns(At(c, 15))) == s.topology
            && ItemIds(Inner(c, 16, 0)) == ad.localDatasets
            && Inner(c, 16, 1) == s.locality[0] && Inner(c, 16, 2) == s.locality[1]
            && StringOf(At(c, 22)) == ad.tenant
  {
    hide Row, Columns, TagItems, ItemTags, ItemNames, TopologyColumns, TopologyOf, TopologyNotes, IdItems, ItemIds,
         TextItem, StringOf, AdvertisedColumns, TrackedColumns;
    var ad := s.resource.ad;
    PartColumns(s, c);
    TagsBack(ad.capabilities, s.capabilities);
    TopologyBack(ad.topology, s.topology);
    RowColumns([IdItems(ad.localDatasets), At(s.locality, 0), At(s.locality, 1)]);
    IdsBack(ad.localDatasets);
    StringBack(ad.tenant);
  }

  lemma DescriptorsBack(s: StoredResource, c: seq<Value>)
    requires ResourceWritable(s) && c == AdvertisedColumns(s) + TrackedColumns(s)
    ensures var ad := s.resource.ad;
            && ItemAccelerators(At(c, 17)) == ad.accelerators && ItemAcceleratorNotes(At(c, 17)) == s.accelerators
            && ItemModel(At(c, 18)) == ad.model && ItemModelNotes(At(c, 18)) == s.model
            && ItemSimulator(At(c, 19)) == ad.simulator
            && ItemDataset(At(c, 20)) == ad.dataset && ItemDatasetNotes(At(c, 20)) == s.dataset
            && ItemEnvironment(At(c, 21)) == ad.environment && ItemEnvironmentNotes(At(c, 21)) == s.environment
  {
    hide AcceleratorItems, ModelItem, SimulatorItem, DatasetItem, EnvironmentItem, ItemAccelerators,
         ItemAcceleratorNotes, ItemModel, ItemModelNotes, ItemSimulator, ItemDataset, ItemDatasetNotes, ItemEnvironment,
         ItemEnvironmentNotes, AdvertisedColumns, TrackedColumns, At;
    var ad := s.resource.ad;
    PartColumns(s, c);
    AcceleratorsBack(ad.accelerators, s.accelerators);
    ModelBack(ad.model, s.model);
    SimulatorBack(ad.simulator);
    DatasetBack(ad.dataset, s.dataset);
    EnvironmentBack(ad.environment, s.environment);
  }

  lemma PlainColumns(s: StoredResource, c: seq<Value>)
    requires |s.accelerators| == |s.resource.ad.accelerators| && c == AdvertisedColumns(s) + TrackedColumns(s)
    ensures var ad := s.resource.ad;
            && At(c, 0) == Num(ad.id) && At(c, 1) == Num(ClassCode(ad.resourceClass))
            && At(c, 3) == Num(ad.worker) && At(c, 4) == Num(ad.boot) && At(c, 6) == Num(Bit(ad.sharing.Exclusive?))
            && At(c, 8) == Num(ad.slots) && At(c, 9) == Num(ad.memory) && At(c, 10) == Num(ad.maxSessions)
            && At(c, 11) == Num(ad.occupancy) && At(c, 12) == Num(HealthCode(ad.health))
            && At(c, 14) == Num(ReadinessCode(ad.readiness))
  {
    hide Row, TagItems, TopologyColumns, AcceleratorItems, ModelItem, SimulatorItem, DatasetItem, EnvironmentItem,
         IdItems, TextItem, ClassCode, HealthCode, ReadinessCode, TrackedColumns, Bit;
    var ad, a := s.resource.ad, AdvertisedColumns(s);
    assert |a| == 23 && a[0] == Num(ad.id) && a[1] == Num(ClassCode(ad.resourceClass));
    assert a[3] == Num(ad.worker) && a[4] == Num(ad.boot) && a[6] == Num(Bit(ad.sharing.Exclusive?));
    assert a[8] == Num(ad.slots) && a[9] == Num(ad.memory) && a[10] == Num(ad.maxSessions);
    assert a[11] == Num(ad.occupancy) && a[12] == Num(HealthCode(ad.health));
    assert a[14] == Num(ReadinessCode(ad.readiness));
  }

  lemma TextColumns(s: StoredResource, c: seq<Value>)
    requires |s.accelerators| == |s.resource.ad.accelerators| && c == AdvertisedColumns(s) + TrackedColumns(s)
    ensures At(c, 2) == At(s.texts, 0) && At(c, 5) == At(s.texts, 1) && At(c, 13) == At(s.texts, 2)
            && At(c, 23) == At(s.texts, 3) && At(c, 31) == At(s.texts, 4)
  {
    hide Row, TagItems, TopologyColumns, AcceleratorItems, ModelItem, SimulatorItem, DatasetItem, EnvironmentItem,
         IdItems, TextItem, ClassCode, HealthCode, ReadinessCode, LifecycleCode, Bit;
    var a, t := AdvertisedColumns(s), TrackedColumns(s);
    assert |a| == 23 && a[2] == At(s.texts, 0) && a[5] == At(s.texts, 1) && a[13] == At(s.texts, 2);
    assert |t| == 10 && t[0] == At(s.texts, 3) && t[8] == At(s.texts, 4);
  }

  /** The plain fields and the texts come back. */
  lemma PlainBack(s: StoredResource, c: seq<Value>)
    requires ResourceWritable(s) && c == AdvertisedColumns(s) + TrackedColumns(s)
    ensures var ad := s.resource.ad;
            && IdOf(At(c, 0)) == ad.id && ClassOf(NatOf(At(c, 1))) == ad.resourceClass
            && IdOf(At(c, 3)) == ad.worker && IdOf(At(c, 4)) == ad.boot
            && (if BitOf(At(c, 6)) then Exclusive else Shared) == ad.sharing
            && WordOf(At(c, 8)) == ad.slots && IdOf(At(c, 9)) == ad.memory && WordOf(At(c, 10)) == ad.maxSessions
            && WordOf(At(c, 11)) == ad.occupancy && HealthOf(NatOf(At(c, 12))) == ad.health
            && ReadinessOf(NatOf(At(c, 14))) == ad.readiness
    ensures [At(c, 2), At(c, 5), At(c, 13), At(c, 23), At(c, 31)] == s.texts
  {
    hide AdvertisedColumns, TrackedColumns;
    PlainColumns(s, c);
    TextColumns(s, c);
  }

  lemma AdvertisedBack(s: StoredResource, c: seq<Value>)
    requires ResourceWritable(s) && c == AdvertisedColumns(s) + TrackedColumns(s)
    ensures AdvertisementOf(c) == s.resource.ad
  {
    hide ResourceWritable, AdvertisedColumns, TrackedColumns, Columns, ItemTags, ItemNames, TopologyOf, TopologyNotes,
         ItemIds, StringOf, ItemAccelerators, ItemModel, ItemSimulator, ItemDataset, ItemEnvironment, Inner, At, IdOf,
         WordOf, NatOf, BitOf, HealthOf, ReadinessOf, ClassOf;
    PlainBack(s, c);
    PartsBack(s, c);
    DescriptorsBack(s, c);
  }

  /** A resource comes back from its row, with everything that travels beside it. */
  lemma ResourceRowBack(s: StoredResource)
    requires ResourceWritable(s)
    ensures ResourceOfRow(ResourceRow(s)) == s
  {
    hide AdvertisedColumns, TrackedColumns, Row, Columns, ItemTags, ItemNames, TopologyOf, TopologyNotes, ItemIds,
         ItemAccelerators, ItemAcceleratorNotes, ItemModel, ItemModelNotes, ItemDataset, ItemDatasetNotes,
         ItemEnvironment, ItemEnvironmentNotes, Inner, At, ResourceOf;
    var c := AdvertisedColumns(s) + TrackedColumns(s);
    RowColumns(c);
    PlainBack(s, c);
    PartsBack(s, c);
    DescriptorsBack(s, c);
    AdvertisedBack(s, c);
    TrackedBack(s, c);
    assert [s.locality[0], s.locality[1]] == s.locality;
  }

  lemma TrackedBack(s: StoredResource, c: seq<Value>)
    requires ResourceWritable(s) && c == AdvertisedColumns(s) + TrackedColumns(s) && AdvertisementOf(c) == s.resource.ad
    ensures ResourceOf(c) == s.resource
  {
    hide AdvertisementOf, AdvertisedColumns;
    assert |AdvertisedColumns(s)| == 23 by { AdvertisedCount(s); }
  }

  lemma AdvertisedCount(s: StoredResource)
    requires |s.accelerators| == |s.resource.ad.accelerators|
    ensures |AdvertisedColumns(s)| == 23
  {
  }

  // ---------------------------------------------------------------- requests

  function RequirementHead(q: Requirement, names: seq<Value>): seq<Value> {
    [TextItem(q.name), Num(ClassCode(q.resourceClass)), TagItems(q.capabilities, names), Num(q.minSlots),
     Num(q.minMemory), Num(Bit(q.requireExclusive)), Num(Bit(q.requireCurrentEvidence)),
     Num(HealthCode(q.minimumHealth)), Num(q.maxOccupancyPercent), OptionItem(q.accelerator), OptionItem(q.model),
     TextItem(q.modelVersion), Num(Bit(q.requireModelResident)), OptionItem(q.simulator)]
  }

  function RequirementTail(q: Requirement): seq<Value> {
    [TextItem(q.simulatorVersion), TextItem(q.simulatorScenario), Num(Bit(q.requireSimulatorReady)),
     OptionItem(q.dataset), OptionItem(q.datasetVersion), OptionItem(q.environment), TextItem(q.environmentDigest),
     OptionItem(q.physicalEnvironment), OptionItem(q.virtualEnvironment), OptionItem(q.requiredDomain),
     Num(ScopeCode(q.requiredDomainScope)), IdItems(q.allowlist), IdItems(q.denylist), Num(q.affinityGroup)]
  }

  function RequirementRow(q: Requirement, names: seq<Value>): Value {
    Row(RequirementHead(q, names) + RequirementTail(q))
  }

  function RequirementOfColumns(c: seq<Value>): Requirement {
    Requirement(
      StringOf(At(c, 0)), ClassOf(NatOf(At(c, 1))), ItemTags(At(c, 2)), WordOf(At(c, 3)), IdOf(At(c, 4)),
      BitOf(At(c, 5)), BitOf(At(c, 6)), HealthOf(NatOf(At(c, 7))), WordOf(At(c, 8)), ItemOption(At(c, 9)),
      ItemOption(At(c, 10)), StringOf(At(c, 11)), BitOf(At(c, 12)), ItemOption(At(c, 13)), StringOf(At(c, 14)),
      StringOf(At(c, 15)), BitOf(At(c, 16)), ItemOption(At(c, 17)), ItemOption(At(c, 18)), ItemOption(At(c, 19)),
      StringOf(At(c, 20)), ItemOption(At(c, 21)), ItemOption(At(c, 22)), ItemOption(At(c, 23)),
      ScopeOf(NatOf(At(c, 24))), ItemIds(At(c, 25)), ItemIds(At(c, 26)), WordOf(At(c, 27)))
  }

  function RequirementOf(v: Value): Requirement { RequirementOfColumns(Columns(v)) }

  function RequirementNames(v: Value): seq<Value> { ItemNames(At(Columns(v), 2)) }

  ghost predicate RequirementWritable(q: Requirement, names: seq<Value>) {
    && |names| == |SortedKeys(q.capabilities)|
    && Bytewise(q.name) && Bytewise(q.modelVersion) && Bytewise(q.simulatorVersion) && Bytewise(q.simulatorScenario)
    && Bytewise(q.environmentDigest)
  }

  lemma OptionBack(id: Option<U64>)
    ensures ItemOption(OptionItem(id)) == id
  {
  }

  lemma RequirementHeadColumns(q: Requirement, names: seq<Value>, c: seq<Value>)
    requires c == RequirementHead(q, names) + RequirementTail(q)
    ensures At(c, 0) == TextItem(q.name) && At(c, 1) == Num(ClassCode(q.resourceClass))
            && At(c, 2) == TagItems(q.capabilities, names)
            && At(c, 3) == Num(q.minSlots) && At(c, 4) == Num(q.minMemory)
            && At(c, 5) == Num(Bit(q.requireExclusive)) && At(c, 6) == Num(Bit(q.requireCurrentEvidence))
            && At(c, 7) == Num(HealthCode(q.minimumHealth)) && At(c, 8) == Num(q.maxOccupancyPercent)
            && At(c, 9) == OptionItem(q.accelerator) && At(c, 10) == OptionItem(q.model)
            && At(c, 11) == TextItem(q.modelVersion) && At(c, 12) == Num(Bit(q.requireModelResident))
            && At(c, 13) == OptionItem(q.simulator)
  {
    hide TextItem, TagItems, OptionItem, ClassCode, HealthCode, Bit, RequirementTail;
    assert |RequirementHead(q, names)| == 14;
  }

  lemma RequirementTailColumns(q: Requirement, names: seq<Value>, c: seq<Value>)
    requires c == RequirementHead(q, names) + RequirementTail(q)
    ensures At(c, 14) == TextItem(q.simulatorVersion) && At(c, 15) == TextItem(q.simulatorScenario)
            && At(c, 16) == Num(Bit(q.requireSimulatorReady)) && At(c, 17) == OptionItem(q.dataset)
            && At(c, 18) == OptionItem(q.datasetVersion) && At(c, 19) == OptionItem(q.environment)
            && At(c, 20) == TextItem(q.environmentDigest) && At(c, 21) == OptionItem(q.physicalEnvironment)
            && At(c, 22) == OptionItem(q.virtualEnvironment) && At(c, 23) == OptionItem(q.requiredDomain)
            && At(c, 24) == Num(ScopeCode(q.requiredDomainScope)) && At(c, 25) == IdItems(q.allowlist)
            && At(c, 26) == IdItems(q.denylist) && At(c, 27) == Num(q.affinityGroup)
  {
    hide TextItem, TagItems, OptionItem, ClassCode, HealthCode, ScopeCode, Bit, IdItems;
    assert |RequirementHead(q, names)| == 14;
    var t := RequirementTail(q);
    assert |t| == 14 && forall i :: 0 <= i < 14 ==> c[14 + i] == t[i];
  }

  lemma RequirementRowBack(q: Requirement, names: seq<Value>)
    requires RequirementWritable(q, names)
    ensures RequirementOf(RequirementRow(q, names)) == q && RequirementNames(RequirementRow(q, names)) == names
  {
    hide RequirementHead, RequirementTail, Row, Columns, TextItem, TagItems, IdItems, OptionItem, StringOf, ItemTags,
         ItemNames, ItemIds, ItemOption, At;
    var c := RequirementHead(q, names) + RequirementTail(q);
    RowColumns(c);
    RequirementHeadColumns(q, names, c);
    RequirementTailColumns(q, names, c);
    TagsBack(q.capabilities, names);
    IdsBack(q.allowlist);
    IdsBack(q.denylist);
    StringBack(q.name);
    StringBack(q.modelVersion);
    StringBack(q.simulatorVersion);
    StringBack(q.simulatorScenario);
    StringBack(q.environmentDigest);
    forall id ensures ItemOption(OptionItem(id)) == id { OptionBack(id); }
  }

  function GroupRow(g: GroupConstraint): Value {
    Row([Num(g.groupA), Num(g.groupB), Num(ScopeCode(g.scope))])
  }

  function GroupOf(v: Value): GroupConstraint {
    var c := Columns(v);
    GroupConstraint(WordOf(At(c, 0)), WordOf(At(c, 1)), ScopeOf(NatOf(At(c, 2))))
  }

  function GroupItems(gs: seq<GroupConstraint>): Value {
    Items(seq(|gs|, i requires 0 <= i < |gs| => GroupRow(gs[i])))
  }

  function ItemGroups(v: Value): seq<GroupConstraint> {
    var vs := ListOf(v);
    seq(|vs|, i requires 0 <= i < |vs| => GroupOf(vs[i]))
  }

  lemma GroupsBack(gs: seq<GroupConstraint>)
    ensures ItemGroups(GroupItems(gs)) == gs
  {
    hide Row, Columns;
    forall i | 0 <= i < |gs| ensures GroupOf(GroupRow(gs[i])) == gs[i] {
      RowColumns([Num(gs[i].groupA), Num(gs[i].groupB), Num(ScopeCode(gs[i].scope))]);
    }
  }

  /** A weight, stored as its 32-bit two's complement. */
  function WeightWordOf(w: int): Value { Num(Wrap32(w)) }

  function WeightOf(v: Value): int {
    if WordOf(v) < 0x8000_0000 then WordOf(v) else WordOf(v) - TWO_32
  }

  function WeightRow(ws: seq<int>): Value {
    Row(seq(|ws|, i requires 0 <= i < |ws| => WeightWordOf(ws[i])))
  }

  function RowWeights(v: Value): seq<int> {
    var c := Columns(v);
    seq(|c|, i requires 0 <= i < |c| => WeightOf(c[i]))
  }

  lemma WeightsBack(ws: seq<int>)
    requires forall w :: w in ws ==> -MAX_WEIGHT <= w <= MAX_WEIGHT
    ensures RowWeights(WeightRow(ws)) == ws
  {
    hide Row, Columns;
    var vs := seq(|ws|, i requires 0 <= i < |ws| => WeightWordOf(ws[i]));
    RowColumns(vs);
    forall i | 0 <= i < |ws| ensures WeightOf(vs[i]) == ws[i] {
      assert ws[i] in ws;
    }
  }

  function RequirementItems(qs: seq<Requirement>, names: seq<seq<Value>>): Value
    requires |names| == |qs|
  {
    Items(seq(|qs|, i requires 0 <= i < |qs| => RequirementRow(qs[i], names[i])))
  }

  function ItemRequirements(v: Value): seq<Requirement> {
    var vs := ListOf(v);
    seq(|vs|, i requires 0 <= i < |vs| => RequirementOf(vs[i]))
  }

  function ItemRequirementNames(v: Value): seq<seq<Value>> {
    var vs := ListOf(v);
    seq(|vs|, i requires 0 <= i < |vs| => RequirementNames(vs[i]))
  }

  lemma RequirementsBack(qs: seq<Requirement>, names: seq<seq<Value>>)
    requires |names| == |qs| && forall i :: 0 <= i < |qs| ==> RequirementWritable(qs[i], names[i])
    ensures ItemRequirements(RequirementItems(qs, names)) == qs
    ensures ItemRequirementNames(RequirementItems(qs, names)) == names
  {
    hide RequirementRow, RequirementOf, RequirementNames, RequirementWritable;
    forall i | 0 <= i < |qs|
      ensures RequirementOf(RequirementRow(qs[i], names[i])) == qs[i]
      ensures RequirementNames(RequirementRow(qs[i], names[i])) == names[i]
    {
      RequirementRowBack(qs[i], names[i]);
    }
  }

  /** A request as it is stored: beside the engine's record the capability names of its requirements, and its
      workload, reproducibility flag, caller and provenance, submission sequence and detail. */
  datatype PersistedRequest = PersistedRequest(stored: StoredRequest, names: seq<seq<Value>>, texts: seq<Value>)

  ghost predicate RequestWritable(s: PersistedRequest) {
    var r := s.stored.request;
    && |s.texts| == 6 && |s.names| == |r.requirements| && Bytewise(r.tenant) && -2000 <= r.priority <= 1000
    && (forall i :: 0 <= i < |s.names| ==> RequirementWritable(r.requirements[i], s.names[i]))
    && (forall w :: w in r.weights ==> -MAX_WEIGHT <= w <= MAX_WEIGHT)
  }

  function RequestColumns(s: PersistedRequest): seq<Value>
    requires |s.names| == |s.stored.request.requirements|
  {
    var r := s.stored.request;
    [Num(r.id), Num(r.experiment), Num(r.experimentGeneration), Num(r.trial), At(s.texts, 0), TextItem(r.tenant),
     Num(Wrap32(r.priority + 2000)), RequirementItems(r.requirements, s.names), GroupItems(r.affinity),
     GroupItems(r.antiAffinity), Num(Bit(r.experimentAntiAffinity)), Num(Bit(r.exclusive)), At(s.texts, 1),
     Num(Bit(r.allowPreemption)), Num(r.maxReassignments), WeightRow(r.weights), At(s.texts, 2), At(s.texts, 3)]
  }

  function PersistedColumns(s: PersistedRequest): seq<Value>
    requires |s.names| == |s.stored.request.requirements|
  {
    [Row(RequestColumns(s)), Num(RequestCode(s.stored.state)), At(s.texts, 4), Num(s.stored.current),
     Num(s.stored.placementCount), At(s.texts, 5)]
  }

  function RequestRow(s: PersistedRequest): Value
    requires |s.names| == |s.stored.request.requirements|
  {
    Row(PersistedColumns(s))
  }

  function RequestOf(c: seq<Value>): Request {
    Request(IdOf(At(c, 0)), IdOf(At(c, 1)), IdOf(At(c, 2)), IdOf(At(c, 3)), StringOf(At(c, 5)), WordOf(At(c, 6)) - 2000,
            ItemRequirements(At(c, 7)), ItemGroups(At(c, 8)), ItemGroups(At(c, 9)), BitOf(At(c, 10)), BitOf(At(c, 11)),
            BitOf(At(c, 13)), NatOf(At(c, 14)), RowWeights(At(c, 15)))
  }

  function RequestOfColumns(p: seq<Value>, c: seq<Value>): PersistedRequest {
    PersistedRequest(
      StoredRequest(RequestOf(c), RequestStateOf(NatOf(At(p, 1))), IdOf(At(p, 3)), NatOf(At(p, 4))),
      ItemRequirementNames(At(c, 7)), [At(c, 4), At(c, 12), At(c, 16), At(c, 17), At(p, 2), At(p, 5)])
  }

  function RequestOfRow(v: Value): PersistedRequest {
    RequestOfColumns(Columns(v), Columns(At(Columns(v), 0)))
  }

  lemma RequestBack(s: PersistedRequest, c: seq<Value>)
    requires RequestWritable(s) && c == RequestColumns(s)
    ensures RequestOf(c) == s.stored.request && ItemRequirementNames(At(c, 7)) == s.names
  {
    hide Row, Columns, TextItem, StringOf, RequirementItems, ItemRequirements, ItemRequirementNames, GroupItems,
         ItemGroups, WeightRow, RowWeights, RequirementWritable;
    var r := s.stored.request;
    StringBack(r.tenant);
    RequirementsBack(r.requirements, s.names);
    GroupsBack(r.affinity);
    GroupsBack(r.antiAffinity);
    WeightsBack(r.weights);
  }

  /** A request comes back from its row, with everything that travels beside it. */
  lemma RequestRowBack(s: PersistedRequest)
    requires RequestWritable(s)
    ensures RequestOfRow(RequestRow(s)) == s
  {
    hide Row, Columns, RequestOf, ItemRequirementNames, RequirementItems, GroupItems, WeightRow, TextItem,
         RequirementWritable;
    var c := RequestColumns(s);
    RowColumns(c);
    RowColumns(PersistedColumns(s));
    RequestBack(s, c);
  }

  // ---------------------------------------------------------------- limits

  /** The limits the engine reads, among the columns of those it does not. */
  function LimitColumns(l: Limits, n: seq<Value>): seq<Value> {
    [Num(l.maxResources), At(n, 0), At(n, 1), At(n, 2), At(n, 3), At(n, 4), Num(l.maxRetainedRequests),
     Num(l.maxActiveRequests), Num(l.maxRequirements), At(n, 5), At(n, 6), Num(l.maxAffinityPairs),
     Num(l.maxAffinityGroups), Num(l.maxCandidateResources), Num(l.maxCandidatesEvaluated), Num(l.maxCandidatesRanked),
     At(n, 7), Num(l.maxRejectionReasons), At(n, 8), Num(l.maxPlacements), Num(l.maxActivePlacements),
     Num(l.maxReservations), Num(l.maxActiveReservations), At(n, 9), At(n, 10), At(n, 11), At(n, 12), At(n, 13),
     At(n, 14), At(n, 15), At(n, 16), At(n, 17), At(n, 18), Num(l.maxPersistenceRecords), At(n, 19), At(n, 20)]
  }

  function LimitsOf(c: seq<Value>): Limits {
    Limits(NatOf(At(c, 0)), NatOf(At(c, 6)), NatOf(At(c, 7)), NatOf(At(c, 8)), NatOf(At(c, 11)), NatOf(At(c, 12)),
           NatOf(At(c, 13)), NatOf(At(c, 14)), NatOf(At(c, 15)), NatOf(At(c, 17)), NatOf(At(c, 19)), NatOf(At(c, 20)),
           NatOf(At(c, 21)), NatOf(At(c, 22)), NatOf(At(c, 33)))
  }

  function LimitNotes(c: seq<Value>): seq<Value> {
    [At(c, 1), At(c, 2), At(c, 3), At(c, 4), At(c, 5), At(c, 9), At(c, 10), At(c, 16), At(c, 18), At(c, 23), At(c, 24),
     At(c, 25), At(c, 26), At(c, 27), At(c, 28), At(c, 29), At(c, 30), At(c, 31), At(c, 32), At(c, 34), At(c, 35)]
  }

  lemma LimitsBack(l: Limits, n: seq<Value>)
    requires |n| == 21
    ensures var c := Columns(Row(LimitColumns(l, n))); LimitsOf(c) == l && LimitNotes(c) == n
  {
    hide Row, Columns, LimitsOf, LimitNotes;
    RowColumns(LimitColumns(l, n));
    LimitFields(l, n);
    LimitTexts(l, n);
  }

  lemma LimitFields(l: Limits, n: seq<Value>)
    ensures LimitsOf(LimitColumns(l, n)) == l
  {
  }

  lemma LimitTexts(l: Limits, n: seq<Value>)
    requires |n| == 21
    ensures LimitNotes(LimitColumns(l, n)) == n
  {
    hide LimitColumns, At;
    FirstLimitTexts(l, n);
    LastLimitTexts(l, n);
    ListedAgain(n);
  }

  lemma ListedAgain(n: seq<Value>)
    requires |n| == 21
    ensures n == [n[0], n[1], n[2], n[3], n[4], n[5], n[6], n[7], n[8], n[9], n[10], n[11], n[12], n[13], n[14], n[15],
                  n[16], n[17], n[18], n[19], n[20]]
  {
  }

  lemma FirstLimitTexts(l: Limits, n: seq<Value>)
    requires |n| == 21
    ensures var c := LimitColumns(l, n);
            At(c, 1) == n[0] && At(c, 2) == n[1] && At(c, 3) == n[2] && At(c, 4) == n[3] && At(c, 5) == n[4]
            && At(c, 9) == n[5] && At(c, 10) == n[6] && At(c, 16) == n[7] && At(c, 18) == n[8] && At(c, 23) == n[9]
  {
    hide At;
    var c := LimitColumns(l, n);
    assert |c| == 36 && c[1] == At(n, 0) && c[2] == At(n, 1) && c[3] == At(n, 2) && c[4] == At(n, 3);
    assert c[5] == At(n, 4) && c[9] == At(n, 5) && c[10] == At(n, 6) && c[16] == At(n, 7) && c[18] == At(n, 8);
    assert c[23] == At(n, 9);
    forall xs: seq<Value>, i: nat | i < |xs| ensures At(xs, i) == xs[i] { AtIndex(xs, i); }
  }

  lemma AtIndex(xs: seq<Value>, i: nat)
    requires i < |xs|
    ensures At(xs, i) == xs[i]
  {
  }

  lemma LastLimitTexts(l: Limits, n: seq<Value>)
    requires |n| == 21
    ensures var c := LimitColumns(l, n);
            At(c, 24) == n[10] && At(c, 25) == n[11] && At(c, 26) == n[12] && At(c, 27) == n[13] && At(c, 28) == n[14]
            && At(c, 29) == n[15] && At(c, 30) == n[16] && At(c, 31) == n[17] && At(c, 32) == n[18]
            && At(c, 34) == n[19] && At(c, 35) == n[20]
  {
    hide At;
    var c := LimitColumns(l, n);
    assert |c| == 36 && c[24] == At(n, 10) && c[25] == At(n, 11) && c[26] == At(n, 12) && c[27] == At(n, 13);
    assert c[28] == At(n, 14) && c[29] == At(n, 15) && c[30] == At(n, 16) && c[31] == At(n, 17) && c[32] == At(n, 18);
    assert c[34] == At(n, 19) && c[35] == At(n, 20);
    forall xs: seq<Value>, i: nat | i < |xs| ensures At(xs, i) == xs[i] { AtIndex(xs, i); }
  }
}
