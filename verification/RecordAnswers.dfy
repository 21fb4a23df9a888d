/** One record of every kind, column by column and byte by byte (src/record_codec.cpp:37-74, 126-130, 148-425,
    653-728, 843-875, 1000-1007, 1033-1104, 1194-1213): the order of the fields, their widths and their codes. */
module RecordAnswers {
  import opened Prelude
  import opened Records
  import opened Planning
  import opened Bytes
  import opened Codec
  import opened RecordCodec
  import opened InventoryCodec
  import opened Cells

  // ---------------------------------------------------------------- a reservation

  const SAMPLE_RESERVATION :=
    StoredReservation(Reservation(1, 2, 3, 4, 5, 6, 7, 8, [Claim(9, 10, true, 11)], Revoked), 12, [0x64])

  /** Resource, slots, exclusive, generation. */
  function ClaimCells(): seq<Cell> { [LongCell(9), WordCell(10), FlagCell(true), LongCell(11)] }

  lemma ClaimIs()
    ensures Fields(Formats(ClaimCells())) == CLAIM
    ensures Row(Values(ClaimCells())) == ClaimRow(Claim(9, 10, true, 11))
  {
    hide Fields, Row;
    assert Formats(ClaimCells()) == [Long, ANY_WORD, Flag, Long];
    assert Values(ClaimCells()) == [Num(9), Num(10), Num(1), Num(11)];
  }

  /** Identity, lease, placement, its generation, request, experiment, its generation and epoch; then claims,
      state, sequence and detail. */
  function ReservationCells(b: Bounds): seq<Cell> {
    [LongCell(1), LongCell(2), LongCell(3), LongCell(4), LongCell(5), LongCell(6), LongCell(7), LongCell(8),
     ListCell(RowCell(ClaimCells()), b.maxRequirements, Free), CodeCell(2, 2), LongCell(12),
     TextCell(b.maxString, 0x64)]
  }

  lemma ReservationAnswer(b: Bounds)
    ensures Encode(ReservationFormat(b), ReservationRow(SAMPLE_RESERVATION)) == Spelling(ReservationCells(b))
  {
    hide Encode, Fields, Row, Spelling, ClaimRow, CLAIM;
    var cs, rv, row := ReservationCells(b), SAMPLE_RESERVATION.reservation, ClaimRow(Claim(9, 10, true, 11));
    RowSpelled(cs);
    ClaimIs();
    assert Formats(cs)
        == [Long, Long, Long, Long, Long, Long, Long, Long, Listing(CLAIM, b.maxRequirements, Free), Enum(2), Long,
            Text(b.maxString)];
    assert seq(|rv.claims|, i requires 0 <= i < |rv.claims| => ClaimRow(rv.claims[i])) == [row];
    assert Values(cs)
        == [Num(1), Num(2), Num(3), Num(4), Num(5), Num(6), Num(7), Num(8), Items([row]), Num(2), Num(12), Str([0x64])];
  }

  // ---------------------------------------------------------------- a placement

  const SAMPLE_SELECTED := Selected(9, Simulator, 10, 11, true, "q", 12, 13)

  const SAMPLE_PLACEMENT :=
    StoredPlacement(
      Placement(1, 2, 3, 4, 5, 6, 7, 8, [SAMPLE_SELECTED], 14, 15, 16, 17, Preempted, 10, true), [[0x6e]], [0x64], 19,
      [0x63])

  /** Resource, class, generation, slots, exclusive, requirement, worker, incarnation, name. */
  function SelectedCells(b: Bounds): seq<Cell> {
    [LongCell(9), CodeCell(6, 2), LongCell(10), WordCell(11), FlagCell(true), TextCell(b.maxString, 0x71),
     LongCell(12), LongCell(13), TextCell(b.maxString, 0x6e)]
  }

  lemma SelectedIs(b: Bounds)
    ensures Fields(Formats(SelectedCells(b))) == SelectedFormat(b)
    ensures Row(Values(SelectedCells(b))) == SelectedRow(SAMPLE_SELECTED, [0x6e])
  {
    hide Fields, Row, Encode, Spelled, L8, L4;
    var cs := SelectedCells(b);
    assert Formats(cs) == [Long, CLASS, Long, ANY_WORD, Flag, Text(b.maxString), Long, Long, Text(b.maxString)];
    assert TextItem("q") == Str([0x71]) by { OneLetter("q", 0x71); }
    assert Values(cs) == [Num(9), Num(2), Num(10), Num(11), Num(1), Str([0x71]), Num(12), Num(13), Str([0x6e])];
  }

  /** Identity, generation, request, decision, experiment, its generation, trial and epoch; resources. */
  function PlacementHeadCells(b: Bounds): seq<Cell> {
    [LongCell(1), LongCell(2), LongCell(3), LongCell(4), LongCell(5), LongCell(6), LongCell(7), LongCell(8),
     ListCell(RowCell(SelectedCells(b)), b.maxRequirements, Free)]
  }

  /** Reservation, lease, worker and incarnation; state, reassignments, mark, detail, sequence and completion. */
  function PlacementTailCells(b: Bounds): seq<Cell> {
    [LongCell(14), LongCell(15), LongCell(16), LongCell(17), CodeCell(8, 6), RangedCell(0, 16, 10),
     FlagCell(true), TextCell(b.maxString, 0x64), LongCell(19), TextCell(b.maxString, 0x63)]
  }

  lemma PlacementAnswer(b: Bounds)
    ensures Encode(PlacementFormat(b), PlacementRow(SAMPLE_PLACEMENT))
         == Spelling(PlacementHeadCells(b) + PlacementTailCells(b))
  {
    hide Encode, Fields, Row, Spelling, SelectedRow, SelectedFormat, Formats, Values;
    var cs, ds := PlacementHeadCells(b), PlacementTailCells(b);
    RowSpelled(cs + ds);
    CellsJoin(cs, ds);
    PlacementHeadIs(b);
    PlacementTailIs(b);
  }

  lemma PlacementHeadIs(b: Bounds)
    ensures var cs := PlacementHeadCells(b);
            Formats(cs) == PlacementHeadFormat(b) && Values(cs) == PlacementHead(SAMPLE_PLACEMENT)
  {
    hide SelectedRow, SelectedFormat, Fields, Row;
    SelectedIs(b);
    assert SelectedRows(SAMPLE_PLACEMENT) == [SelectedRow(SAMPLE_SELECTED, [0x6e])];
  }

  lemma PlacementTailIs(b: Bounds)
    ensures var cs := PlacementTailCells(b);
            Formats(cs) == PlacementTailFormat(b) && Values(cs) == PlacementTail(SAMPLE_PLACEMENT)
  {
    hide Encode, Spelled, L8, L4;
  }

  // ---------------------------------------------------------------- a resource

  const SAMPLE_TOPOLOGY := Topology(10, 11, 12, 13, 14)
  const SAMPLE_MODEL := ModelDescriptor(23, "v", true)
  const SAMPLE_SIMULATOR := SimulatorDescriptor(25, "s", ["t"], 26)

  const SAMPLE_AD :=
    Advertisement(1, Simulator, 3, 4, Exclusive, {5}, 6, 7, 8, 9, Degraded, NotReady, SAMPLE_TOPOLOGY, [15],
                  [Accelerator(18, 19)], Some(SAMPLE_MODEL), Some(SAMPLE_SIMULATOR), Some(DatasetDescriptor(27, 28)),
                  Some(EnvironmentDescriptor(30, "i", 31, 32)), "t")

  function TopologyTexts(): seq<Value> { [Str([0x68]), Str([0x75]), Str([0x72]), Str([0x6b]), Str([0x63]), Num(1)] }

  function AcceleratorTexts(): seq<Value> { [Str([0x6d]), Num(20), Num(21), Num(22)] }

  function ModelTexts(): seq<Value> { [Num(24), Num(1), Items([])] }

  const SAMPLE_RESOURCE :=
    StoredResource(
      Resource(SAMPLE_AD, Lost, 33, 34, 35, 36, 37, true, 38),
      [Str([0x6e]), Num(2), Str([0x64]), Items([Str([0x6c])]), Str([0x61])], [Str([0x61])], TopologyTexts(),
      [Items([Num(16)]), Items([Num(17)])], [AcceleratorTexts()], ModelTexts(), [Str([0x67]), Num(29)], [Str([0x65])])

  /** Capability and its name. */
  function TagCells(): seq<Cell> { [LongCell(5), TextCell(64, 0x61)] }

  lemma TagsAre()
    ensures Fields(Formats(TagCells())) == Fields([Long, Text(64)])
    ensures TagItems({5}, [Str([0x61])]) == Items([Row(Values(TagCells()))])
  {
    hide Row, Fields, Encode, Spelled, L8, L4;
    var m := SortedKeysHead({5});
    assert {5} - {m} == {} && SortedKeys({}) == [];
    assert SortedKeys({5}) == [5];
    assert Formats(TagCells()) == [Long, Text(64)];
    assert Values(TagCells()) == [Num(5), Str([0x61])];
  }

  function DomainCells(b: Bounds, id: Byte, letter: Byte): seq<Cell> { [LongCell(id), TextCell(b.maxString, letter)] }

  lemma DomainIs(b: Bounds, id: Byte, letter: Byte)
    ensures Fields(Formats(DomainCells(b, id, letter))) == Fields([Long, Text(b.maxString)])
    ensures Row(Values(DomainCells(b, id, letter))) == Row([Num(id), Str([letter])])
  {
    hide Row, Fields, Encode, Spelled, L8, L4;
    assert Formats(DomainCells(b, id, letter)) == [Long, Text(b.maxString)];
    assert Values(DomainCells(b, id, letter)) == [Num(id), Str([letter])];
  }

  /** Host, NUMA domain, root complex, rack and cluster, each with its name; then whether it was supplied. */
  function TopologyCells(b: Bounds): seq<Cell> {
    [RowCell(DomainCells(b, 10, 0x68)), RowCell(DomainCells(b, 11, 0x75)), RowCell(DomainCells(b, 12, 0x72)),
     RowCell(DomainCells(b, 13, 0x6b)), RowCell(DomainCells(b, 14, 0x63)), FlagCell(true)]
  }

  lemma TopologyIs(b: Bounds)
    ensures Fields(Formats(TopologyCells(b))) == TopologyFormat(b)
    ensures Values(TopologyCells(b)) == TopologyColumns(SAMPLE_TOPOLOGY, TopologyTexts())
  {
    hide Row, Fields, Encode, Spelled, Spelling, L8, L4, DomainCells;
    var domain := Fields([Long, Text(b.maxString)]);
    DomainIs(b, 10, 0x68);
    DomainIs(b, 11, 0x75);
    DomainIs(b, 12, 0x72);
    DomainIs(b, 13, 0x6b);
    DomainIs(b, 14, 0x63);
    assert Formats(TopologyCells(b)) == [domain, domain, domain, domain, domain, Flag];
  }

  function IdCell(id: Byte, most: U32): Cell { ListCell(LongCell(id), most, Strict) }

  /** Local datasets, resident models, colocated simulators. */
  function LocalityCells(b: Bounds): seq<Cell> {
    [IdCell(15, b.maxLocalDatasets), IdCell(16, b.maxResidentModels), IdCell(17, b.maxScenarios)]
  }

  lemma OneId(id: U64)
    ensures IdItems([id]) == Items([Num(id)])
  {
    var ids := [id];
    assert seq(|ids|, i requires 0 <= i < |ids| => Num(ids[i])) == [Num(id)];
  }

  lemma LocalityIs(b: Bounds)
    ensures Fields(Formats(LocalityCells(b))) == LocalityFormat(b)
    ensures Values(LocalityCells(b)) == [IdItems([15]), Items([Num(16)]), Items([Num(17)])]
  {
    hide Fields, Encode, Spelled, L8, L4, IdItems;
    OneId(15);
    assert Formats(LocalityCells(b))
        == [IdList(b.maxLocalDatasets), IdList(b.maxResidentModels), IdList(b.maxScenarios)];
  }

  /** Identity, model, memory, versions, root complex. */
  function AcceleratorCells(b: Bounds): seq<Cell> {
    [LongCell(18), TextCell(b.maxString, 0x6d), LongCell(19), WordCell(20), WordCell(21), LongCell(22)]
  }

  lemma AcceleratorIs(b: Bounds)
    ensures Fields(Formats(AcceleratorCells(b))) == AcceleratorFormat(b)
    ensures AcceleratorItems([Accelerator(18, 19)], [AcceleratorTexts()])
         == Items([Row(Values(AcceleratorCells(b)))])
  {
    hide Fields, Row, Encode, Spelled, L8, L4;
    var cs := AcceleratorCells(b);
    assert Formats(cs) == [Long, Text(b.maxString), Long, ANY_WORD, ANY_WORD, Long];
    assert Values(cs) == [Num(18), Str([0x6d]), Num(19), Num(20), Num(21), Num(22)];
  }

  /** Identity, version, context, tools, resident, modalities. */
  function ModelCells(b: Bounds): seq<Cell> {
    [LongCell(23), TextCell(b.maxDigest, 0x76), WordCell(24), FlagCell(true), FlagCell(true),
     EmptyCell(Fields([Long, Text(64)]), b.maxCapabilities, Tagged)]
  }

  lemma ModelIs(b: Bounds)
    ensures Fields(Formats(ModelCells(b))) == ModelFormat(b)
    ensures ModelItem(Some(SAMPLE_MODEL), ModelTexts()) == Just(Row(Values(ModelCells(b))))
  {
    hide Fields, Row, Encode, Spelled, L8, L4, TextItem;
    var cs := ModelCells(b);
    OneLetter("v", 0x76);
    assert Formats(cs) == [Long, Text(b.maxDigest), ANY_WORD, Flag, Flag, Capabilities(b)];
    assert Values(cs) == [Num(23), Str([0x76]), Num(24), Num(1), Num(1), Items([])];
  }

  /** Identity, version, scenarios, sessions. */
  function SimulatorCells(b: Bounds): seq<Cell> {
    [LongCell(25), TextCell(b.maxDigest, 0x73), ListCell(TextCell(b.maxString, 0x74), b.maxScenarios, Strict),
     WordCell(26)]
  }

  lemma SimulatorIs(b: Bounds)
    ensures Fields(Formats(SimulatorCells(b))) == SimulatorFormat(b)
    ensures SimulatorItem(Some(SAMPLE_SIMULATOR)) == Just(Row(Values(SimulatorCells(b))))
  {
    hide Fields, Row, Encode, Spelled, L8, L4, TextItem;
    var cs := SimulatorCells(b);
    OneLetter("s", 0x73);
    OneLetter("t", 0x74);
    assert Formats(cs) == [Long, Text(b.maxDigest), TextList(b.maxScenarios, b.maxString), ANY_WORD];
    assert TextItems(["t"]) == Items([Str([0x74])]);
    assert Values(cs) == [Num(25), Str([0x73]), Items([Str([0x74])]), Num(26)];
  }

  /** Identity, version, digest, size. */
  function DatasetCells(b: Bounds): seq<Cell> {
    [LongCell(27), LongCell(28), TextCell(b.maxDigest, 0x67), LongCell(29)]
  }

  lemma DatasetIs(b: Bounds)
    ensures Fields(Formats(DatasetCells(b))) == DatasetFormat(b)
    ensures DatasetItem(Some(DatasetDescriptor(27, 28)), [Str([0x67]), Num(29)]) == Just(Row(Values(DatasetCells(b))))
  {
    hide Fields, Row, Encode, Spelled, L8, L4;
    var cs := DatasetCells(b);
    assert Formats(cs) == [Long, Long, Text(b.maxDigest), Long];
    assert Values(cs) == [Num(27), Num(28), Str([0x67]), Num(29)];
  }

  /** Identity, image, virtual and physical environment, token. */
  function EnvironmentCells(b: Bounds): seq<Cell> {
    [LongCell(30), TextCell(b.maxDigest, 0x69), LongCell(31), LongCell(32), TextCell(b.maxString, 0x65)]
  }

  lemma EnvironmentIs(b: Bounds)
    ensures Fields(Formats(EnvironmentCells(b))) == EnvironmentFormat(b)
    ensures EnvironmentItem(Some(EnvironmentDescriptor(30, "i", 31, 32)), [Str([0x65])])
         == Just(Row(Values(EnvironmentCells(b))))
  {
    hide Fields, Row, Encode, Spelled, L8, L4, TextItem;
    var cs := EnvironmentCells(b);
    OneLetter("i", 0x69);
    assert Formats(cs) == [Long, Text(b.maxDigest), Long, Long, Text(b.maxString)];
    assert Values(cs) == [Num(30), Str([0x69]), Num(31), Num(32), Str([0x65])];
  }

  /** Identity, class, name, worker, incarnation, provenance, sharing, capabilities. */
  function ResourceCells1(b: Bounds): seq<Cell> {
    [LongCell(1), CodeCell(6, 2), TextCell(b.maxString, 0x6e), LongCell(3), LongCell(4), CodeCell(2, 2), CodeCell(1, 1),
     ListCell(RowCell(TagCells()), b.maxCapabilities, Tagged)]
  }

  /** Slots, memory, sessions, occupancy, health and its detail, readiness. */
  function ResourceCells2(b: Bounds): seq<Cell> {
    [WordCell(6), LongCell(7), WordCell(8), WordCell(9), CodeCell(3, 2), TextCell(b.maxString, 0x64), CodeCell(3, 2)]
  }

  /** Topology, locality, accelerators, the four descriptors, tenant. */
  function ResourceCells3(b: Bounds): seq<Cell> {
    [RowCell(TopologyCells(b)), RowCell(LocalityCells(b)),
     ListCell(RowCell(AcceleratorCells(b)), b.maxAccelerators, Free),
     SomeCell(RowCell(ModelCells(b))), SomeCell(RowCell(SimulatorCells(b))), SomeCell(RowCell(DatasetCells(b))),
     SomeCell(RowCell(EnvironmentCells(b))), TextCell(b.maxString, 0x74)]
  }

  /** Labels, lifecycle, generations, sequence, epoch, authority and its detail, reserved slots. */
  function ResourceCells4(b: Bounds): seq<Cell> {
    [ListCell(TextCell(b.maxString, 0x6c), b.maxCapabilities, Strict), CodeCell(3, 3), LongCell(33), LongCell(34),
     LongCell(35), LongCell(36), LongCell(37), FlagCell(true), TextCell(b.maxString, 0x61), WordCell(38)]
  }

  function AdvertisedCells(b: Bounds): seq<Cell> { ResourceCells1(b) + ResourceCells2(b) + ResourceCells3(b) }

  lemma ResourceAnswer(b: Bounds)
    ensures Encode(ResourceFormat(b), ResourceRow(SAMPLE_RESOURCE)) == Spelling(AdvertisedCells(b) + ResourceCells4(b))
  {
    hide Encode, Fields, Row, Spelling, Formats, Values, ResourceFields, AdvertisedColumns, TrackedColumns,
         ResourceCells1, ResourceCells2, ResourceCells3, ResourceCells4;
    RowSpelled(AdvertisedCells(b) + ResourceCells4(b));
    CellsJoin(ResourceCells1(b), ResourceCells2(b));
    CellsJoin(ResourceCells1(b) + ResourceCells2(b), ResourceCells3(b));
    CellsJoin(AdvertisedCells(b), ResourceCells4(b));
    ResourceFormats(b);
    AdvertisedValues(b);
    TrackedValues(b);
  }

  lemma ResourceFormats(b: Bounds)
    ensures Formats(ResourceCells1(b)) + Formats(ResourceCells2(b)) + Formats(ResourceCells3(b))
            + Formats(ResourceCells4(b)) == ResourceFields(b)
  {
    hide Fields, Encode, Spelled, Formats, Capabilities, TextList, TopologyFormat, LocalityFormat, AcceleratorFormat,
         ModelFormat, SimulatorFormat, DatasetFormat, EnvironmentFormat, ResourceCells1, ResourceCells2,
         ResourceCells3, ResourceCells4;
    PlainFormats(b);
    PartFormats(b);
  }

  lemma PlainFormats(b: Bounds)
    ensures Formats(ResourceCells1(b))
         == [Long, CLASS, Text(b.maxString), Long, Long, Enum(2), SHARING, Capabilities(b)]
    ensures Formats(ResourceCells2(b)) == [ANY_WORD, Long, ANY_WORD, ANY_WORD, HEALTH, Text(b.maxString), READINESS]
    ensures Formats(ResourceCells4(b))
         == [TextList(b.maxCapabilities, b.maxString), Enum(3), Long, Long, Long, Long, Long, Flag, Text(b.maxString),
             ANY_WORD]
  {
    hide Fields, Row, Encode, Spelled, Spelling, L8, L4, TagCells;
    TagsAre();
  }

  lemma PartFormats(b: Bounds)
    ensures Formats(ResourceCells3(b))
         == [TopologyFormat(b), LocalityFormat(b), Listing(AcceleratorFormat(b), b.maxAccelerators, Free),
             Optional(ModelFormat(b)), Optional(SimulatorFormat(b)), Optional(DatasetFormat(b)),
             Optional(EnvironmentFormat(b)), Text(b.maxString)]
  {
    hide Fields, Row, Encode, Spelled, Spelling, L8, L4, TopologyFormat, LocalityFormat, AcceleratorFormat, ModelFormat,
         SimulatorFormat, DatasetFormat, EnvironmentFormat, TopologyCells, LocalityCells, AcceleratorCells, ModelCells,
         SimulatorCells, DatasetCells, EnvironmentCells;
    TopologyIs(b);
    LocalityIs(b);
    AcceleratorIs(b);
    ModelIs(b);
    SimulatorIs(b);
    DatasetIs(b);
    EnvironmentIs(b);
  }

  lemma AdvertisedValues(b: Bounds)
    ensures Values(ResourceCells1(b)) + Values(ResourceCells2(b)) + Values(ResourceCells3(b))
         == AdvertisedColumns(SAMPLE_RESOURCE)
  {
    hide Row, Values, TagItems, AcceleratorItems, ModelItem, SimulatorItem, DatasetItem, EnvironmentItem, TextItem,
         IdItems, TopologyColumns, TopologyTexts, ModelTexts, AcceleratorTexts, ResourceCells1, ResourceCells2,
         ResourceCells3;
    PlainValues(b);
    PartValues(b);
    OneLetter("t", 0x74);
  }

  lemma PlainValues(b: Bounds)
    ensures Values(ResourceCells1(b))
         == [Num(1), Num(2), Str([0x6e]), Num(3), Num(4), Num(2), Num(1), TagItems({5}, [Str([0x61])])]
    ensures Values(ResourceCells2(b)) == [Num(6), Num(7), Num(8), Num(9), Num(2), Str([0x64]), Num(2)]
  {
    hide Row, Encode, Spelled, Spelling, L8, L4, TagItems, TagCells;
    TagsAre();
  }

  lemma PartValues(b: Bounds)
    ensures Values(ResourceCells3(b))
         == [Row(TopologyColumns(SAMPLE_TOPOLOGY, TopologyTexts())),
             Row([IdItems([15]), Items([Num(16)]), Items([Num(17)])]),
             AcceleratorItems([Accelerator(18, 19)], [AcceleratorTexts()]),
             ModelItem(Some(SAMPLE_MODEL), ModelTexts()), SimulatorItem(Some(SAMPLE_SIMULATOR)),
             DatasetItem(Some(DatasetDescriptor(27, 28)), [Str([0x67]), Num(29)]),
             EnvironmentItem(Some(EnvironmentDescriptor(30, "i", 31, 32)), [Str([0x65])]), Str([0x74])]
  {
    hide Row, Encode, Spelled, Spelling, L4, AcceleratorItems, ModelItem, SimulatorItem, DatasetItem, EnvironmentItem,
         IdItems, TopologyColumns, TopologyTexts, ModelTexts, AcceleratorTexts, TopologyCells, LocalityCells,
         AcceleratorCells, ModelCells, SimulatorCells, DatasetCells, EnvironmentCells;
    TopologyIs(b);
    LocalityIs(b);
    AcceleratorIs(b);
    ModelIs(b);
    SimulatorIs(b);
    DatasetIs(b);
    EnvironmentIs(b);
  }

  lemma TrackedValues(b: Bounds)
    ensures Values(ResourceCells4(b)) == TrackedColumns(SAMPLE_RESOURCE)
  {
    hide Fields, Row, Encode, Spelled, Spelling, L8, L4, TopologyTexts, ModelTexts, AcceleratorTexts;
  }

  // ---------------------------------------------------------------- a request

  /** One requirement, whatever its flags. */
  function SampleRequirement(w: bool, x: bool, y: bool, z: bool): Requirement {
    Requirement("a", Dataset, {5}, 6, 7, w, x, Degraded, 80, Some(9), None, "b", y, Some(10), "c", "d", z, None,
                Some(11), None, "e", Some(12), None, Some(13), Rack, [14], [15], 16)
  }

  function GivenCell(id: Byte): Cell { SomeCell(LongCell(id)) }

  /** Name, class, capabilities, slots, memory, exclusive, evidence. */
  function RequirementCells1(b: Bounds, w: bool, x: bool): seq<Cell> {
    [TextCell(b.maxString, 0x61), CodeCell(6, 3), ListCell(RowCell(TagCells()), b.maxCapabilities, Tagged),
     WordCell(6), LongCell(7), FlagCell(w), FlagCell(x)]
  }

  /** Health, occupancy, accelerator, model, its version, resident, simulator. */
  function RequirementCells2(b: Bounds, y: bool): seq<Cell> {
    [CodeCell(3, 2), WordCell(80), GivenCell(9), NoCell(Long), TextCell(b.maxDigest, 0x62), FlagCell(y), GivenCell(10)]
  }

  /** Version and scenario, ready, dataset, its version, environment, its digest. */
  function RequirementCells3(b: Bounds, z: bool): seq<Cell> {
    [TextCell(b.maxDigest, 0x63), TextCell(b.maxString, 0x64), FlagCell(z), NoCell(Long), GivenCell(11), NoCell(Long),
     TextCell(b.maxDigest, 0x65)]
  }

  /** Physical and virtual environment, domain, its scope, allow list, deny list, group. */
  function RequirementCells4(b: Bounds): seq<Cell> {
    [GivenCell(12), NoCell(Long), GivenCell(13), CodeCell(4, 3), IdCell(14, b.maxAllowlist), IdCell(15, b.maxDenylist),
     WordCell(16)]
  }

  function RequirementCells(b: Bounds, w: bool, x: bool, y: bool, z: bool): seq<Cell> {
    RequirementCells1(b, w, x) + RequirementCells2(b, y) + (RequirementCells3(b, z) + RequirementCells4(b))
  }

  lemma RequirementIs(b: Bounds, w: bool, x: bool, y: bool, z: bool)
    ensures var cs := RequirementCells(b, w, x, y, z);
            && Fields(Formats(cs)) == RequirementFormat(b)
            && Row(Values(cs)) == RequirementRow(SampleRequirement(w, x, y, z), [Str([0x61])])
  {
    hide Encode, Fields, Row, Formats, Values, RequirementFields, RequirementHead, RequirementTail, RequirementCells1,
         RequirementCells2, RequirementCells3, RequirementCells4, SampleRequirement;
    CellsJoin(RequirementCells1(b, w, x), RequirementCells2(b, y));
    CellsJoin(RequirementCells3(b, z), RequirementCells4(b));
    CellsJoin(RequirementCells1(b, w, x) + RequirementCells2(b, y), RequirementCells3(b, z) + RequirementCells4(b));
    RequirementFormats(b, w, x, y, z);
    RequirementHeadIs(b, w, x, y, z);
    RequirementTailIs(b, w, x, y, z);
  }

  lemma RequirementFormats(b: Bounds, w: bool, x: bool, y: bool, z: bool)
    ensures Formats(RequirementCells1(b, w, x)) + Formats(RequirementCells2(b, y))
            + (Formats(RequirementCells3(b, z)) + Formats(RequirementCells4(b))) == RequirementFields(b)
  {
    hide Fields, Row, Encode, Spelled, Spelling, L8, L4, TagCells;
    TagsAre();
  }

  lemma RequirementHeadIs(b: Bounds, w: bool, x: bool, y: bool, z: bool)
    ensures Values(RequirementCells1(b, w, x)) + Values(RequirementCells2(b, y))
         == RequirementHead(SampleRequirement(w, x, y, z), [Str([0x61])])
  {
    hide Fields, Row, Encode, Spelled, Spelling, L8, L4, TagCells, TagItems, TextItem, Bit;
    TagsAre();
    OneLetter("a", 0x61);
    OneLetter("b", 0x62);
  }

  lemma RequirementTailIs(b: Bounds, w: bool, x: bool, y: bool, z: bool)
    ensures Values(RequirementCells3(b, z)) + Values(RequirementCells4(b))
         == RequirementTail(SampleRequirement(w, x, y, z))
  {
    hide Row, Encode, Spelled, L8, L4, TextItem, IdItems, Bit;
    OneLetter("c", 0x63);
    OneLetter("d", 0x64);
    OneLetter("e", 0x65);
    OneId(14);
    OneId(15);
  }

  /** The requirement is written field by field in this order. */
  lemma RequirementAnswer(b: Bounds, w: bool, x: bool, y: bool, z: bool)
    ensures Encode(RequirementFormat(b), RequirementRow(SampleRequirement(w, x, y, z), [Str([0x61])]))
         == Spelling(RequirementCells(b, w, x, y, z))
  {
    hide Encode, Fields, Row, Spelling, RequirementCells, RequirementRow, RequirementFormat;
    RowSpelled(RequirementCells(b, w, x, y, z));
    RequirementIs(b, w, x, y, z);
  }

  const SAMPLE_WEIGHTS: seq<int> := [1, 2, 3, 4, 5, 6, 7, 8, 9, 10, 11, -1]

  function WeightCells(): seq<Cell> {
    [WeightCell(1), WeightCell(2), WeightCell(3), WeightCell(4), WeightCell(5), WeightCell(6), WeightCell(7),
     WeightCell(8), WeightCell(9), WeightCell(10), WeightCell(11), MinusOneCell()]
  }

  lemma WeightsAre()
    ensures Fields(Formats(WeightCells())) == WEIGHTS
    ensures Row(Values(WeightCells())) == WeightRow(SAMPLE_WEIGHTS)
  {
    hide Fields, Row, Encode, Spelled, L8, L4, Repeated;
    RepeatedAt(Weight, 12);
    var ws := SAMPLE_WEIGHTS;
    assert Formats(WeightCells()) == Repeated(Weight, 12);
    assert seq(|ws|, i requires 0 <= i < |ws| => WeightWordOf(ws[i])) == Values(WeightCells());
  }

  /** Both groups and the scope. */
  function GroupCells(m: Byte, n: Byte, scope: Byte): seq<Cell> { [WordCell(m), WordCell(n), CodeCell(4, scope)] }

  lemma GroupIs(m: Byte, n: Byte, scope: Byte)
    ensures Fields(Formats(GroupCells(m, n, scope))) == Fields([ANY_WORD, ANY_WORD, SCOPE])
    ensures Row(Values(GroupCells(m, n, scope))) == Row([Num(m), Num(n), Num(scope)])
  {
    hide Fields, Row, Encode, Spelled, L8, L4;
    assert Formats(GroupCells(m, n, scope)) == [ANY_WORD, ANY_WORD, SCOPE];
    assert Values(GroupCells(m, n, scope)) == [Num(m), Num(n), Num(scope)];
  }

  lemma GroupItemsAre()
    ensures GroupItems([GroupConstraint(5, 6, Cluster)]) == Items([Row([Num(5), Num(6), Num(4)])])
    ensures GroupItems([GroupConstraint(7, 8, NumaDomain)]) == Items([Row([Num(7), Num(8), Num(1)])])
  {
    hide Row;
  }

  function SampleRequest(w: bool, x: bool, y: bool, z: bool): PersistedRequest {
    PersistedRequest(
      StoredRequest(
        Request(1, 2, 3, 4, "t", -976, [SampleRequirement(w, x, y, z)], [GroupConstraint(5, 6, Cluster)],
                [GroupConstraint(7, 8, NumaDomain)], w, x, z, 9, SAMPLE_WEIGHTS),
        NoPlacement, 10, 11),
      [[Str([0x61])]], [Str([0x77]), Num(Bit(y)), Str([0x63]), Str([0x70]), Num(12), Str([0x64])])
  }

  /** Identity, experiment, its generation, trial, workload, tenant, priority. */
  function RequestCells1(b: Bounds): seq<Cell> {
    [LongCell(1), LongCell(2), LongCell(3), LongCell(4), TextCell(b.maxString, 0x77), TextCell(b.maxString, 0x74),
     PriorityCell()]
  }

  /** Requirements, affinity and anti-affinity pairs. */
  function RequestCells2(b: Bounds, w: bool, x: bool, y: bool, z: bool): seq<Cell> {
    [ListCell(RowCell(RequirementCells(b, w, x, y, z)), b.maxRequirements, Free),
     ListCell(RowCell(GroupCells(5, 6, 4)), b.maxPairs, Free), ListCell(RowCell(GroupCells(7, 8, 1)), b.maxPairs, Free)]
  }

  /** Apart within the experiment, exclusive, reproducible, preemption; reassignments, weights, caller, provenance. */
  function RequestCells3(b: Bounds, w: bool, x: bool, y: bool, z: bool): seq<Cell> {
    [FlagCell(w), FlagCell(x), FlagCell(y), FlagCell(z), RangedCell(0, 16, 9), RowCell(WeightCells()),
     TextCell(b.maxString, 0x63), TextCell(b.maxString, 0x70)]
  }

  function RequestCells(b: Bounds, w: bool, x: bool, y: bool, z: bool): seq<Cell> {
    RequestCells1(b) + RequestCells2(b, w, x, y, z) + RequestCells3(b, w, x, y, z)
  }

  lemma RequestFormats(b: Bounds, w: bool, x: bool, y: bool, z: bool)
    ensures Formats(RequestCells1(b)) + Formats(RequestCells2(b, w, x, y, z)) + Formats(RequestCells3(b, w, x, y, z))
         == RecordCodec.RequestFields(b)
  {
    hide Fields, Row, Encode, Spelled, L8, L4, RequirementFormat, WEIGHTS, WeightCells, WeightRow, RequestCells2;
    RequestListFormats(b, w, x, y, z);
    WeightsAre();
  }

  lemma RequestListFormats(b: Bounds, w: bool, x: bool, y: bool, z: bool)
    ensures var pair := Fields([ANY_WORD, ANY_WORD, SCOPE]);
            Formats(RequestCells2(b, w, x, y, z))
            == [Listing(RequirementFormat(b), b.maxRequirements, Free), Listing(pair, b.maxPairs, Free),
                Listing(pair, b.maxPairs, Free)]
  {
    hide Fields, Row, Encode, Spelled, Spelling, RequirementCells, RequirementFormat, RequirementRow, GroupCells;
    RequirementIs(b, w, x, y, z);
    GroupIs(5, 6, 4);
    GroupIs(7, 8, 1);
  }

  lemma RequestValues(b: Bounds, w: bool, x: bool, y: bool, z: bool)
    ensures Values(RequestCells1(b)) + Values(RequestCells2(b, w, x, y, z)) + Values(RequestCells3(b, w, x, y, z))
         == RequestColumns(SampleRequest(w, x, y, z))
  {
    hide Row, Values, RequestCells1, RequestCells2, RequestCells3, RequirementItems, WeightRow, GroupItems, TextItem,
         SampleRequirement, Bit;
    RequestPlainValues(b, w, x, y, z);
    RequestListValues(b, w, x, y, z);
    OneLetter("t", 0x74);
  }

  lemma RequestPlainValues(b: Bounds, w: bool, x: bool, y: bool, z: bool)
    ensures Values(RequestCells1(b)) == [Num(1), Num(2), Num(3), Num(4), Str([0x77]), Str([0x74]), Num(1024)]
    ensures Values(RequestCells3(b, w, x, y, z))
         == [Num(Bit(w)), Num(Bit(x)), Num(Bit(y)), Num(Bit(z)), Num(9), WeightRow(SAMPLE_WEIGHTS), Str([0x63]),
             Str([0x70])]
  {
    hide Row, Fields, Encode, Spelled, Spelling, L8, L4, WEIGHTS, WeightCells, WeightRow, Bit;
    WeightsAre();
  }

  lemma RequestListValues(b: Bounds, w: bool, x: bool, y: bool, z: bool)
    ensures Values(RequestCells2(b, w, x, y, z))
         == [RequirementItems([SampleRequirement(w, x, y, z)], [[Str([0x61])]]),
             GroupItems([GroupConstraint(5, 6, Cluster)]), GroupItems([GroupConstraint(7, 8, NumaDomain)])]
  {
    hide Row, Encode, Spelled, Spelling, RequirementCells, RequirementRow, GroupCells, GroupItems, SampleRequirement;
    RequirementIs(b, w, x, y, z);
    GroupIs(5, 6, 4);
    GroupIs(7, 8, 1);
    GroupItemsAre();
    var qs, names := [SampleRequirement(w, x, y, z)], [[Str([0x61])]];
    assert RequirementItems(qs, names) == Items([RequirementRow(qs[0], names[0])]);
  }

  lemma RequestIs(b: Bounds, w: bool, x: bool, y: bool, z: bool)
    ensures Fields(Formats(RequestCells(b, w, x, y, z))) == RequestFormat(b)
    ensures Values(RequestCells(b, w, x, y, z)) == RequestColumns(SampleRequest(w, x, y, z))
  {
    hide Encode, Fields, Formats, Values, RequestColumns, RequestCells1, RequestCells2, RequestCells3, SampleRequest;
    CellsJoin(RequestCells1(b), RequestCells2(b, w, x, y, z));
    CellsJoin(RequestCells1(b) + RequestCells2(b, w, x, y, z), RequestCells3(b, w, x, y, z));
    RequestFormats(b, w, x, y, z);
    RequestValues(b, w, x, y, z);
  }

  /** The request, then state, submission sequence, current placement, placements and detail. */
  function StoredCells(b: Bounds, w: bool, x: bool, y: bool, z: bool): seq<Cell> {
    [RowCell(RequestCells(b, w, x, y, z)), CodeCell(5, 5), LongCell(12), LongCell(10), WordCell(11),
     TextCell(b.maxString, 0x64)]
  }

  lemma RequestAnswer(b: Bounds, w: bool, x: bool, y: bool, z: bool)
    ensures Encode(StoredRequestFormat(b), RequestRow(SampleRequest(w, x, y, z)))
         == Spelling(StoredCells(b, w, x, y, z))
  {
    hide Encode, Fields, Row, Spelled, Spelling, RequestFormat, RequestColumns, RequestCells, L8, L4;
    var cs, s := StoredCells(b, w, x, y, z), SampleRequest(w, x, y, z);
    RowSpelled(cs);
    RequestIs(b, w, x, y, z);
    assert Formats(cs) == [RequestFormat(b), Enum(5), Long, Long, ANY_WORD, Text(b.maxString)];
    assert Values(cs) == PersistedColumns(s);
  }

  // ---------------------------------------------------------------- limits and codes

  const SAMPLE_LIMITS := Limits(1, 7, 8, 9, 12, 13, 14, 15, 16, 18, 20, 21, 22, 23, 34)

  /** The limits the engine does not read. */
  function LimitTexts(): seq<Value> {
    [Num(2), Num(3), Num(4), Num(5), Num(6), Num(10), Num(11), Num(17), Num(19), Num(24), Num(25), Num(26), Num(27),
     Num(28), Num(29), Num(30), Num(31), Num(32), Num(33), Num(35), Num(36)]
  }

  /** The words 1, 2, 3 and so on. */
  function Counted(n: Byte): seq<Cell> {
    if n == 0 then [] else Counted(n - 1) + [WordCell(n)]
  }

  lemma {:induction false} CountedAt(n: Byte)
    ensures |Counted(n)| == n && forall i :: 0 <= i < n ==> Counted(n)[i] == WordCell(i + 1)
  {
    hide Encode, Spelled;
    if n > 0 {
      CountedAt(n - 1);
    }
  }

  /** The words in order, the size as 64 bits and one more word. */
  function LimitCells(): seq<Cell> { Counted(34) + [LongCell(35), WordCell(36)] }

  lemma LimitAnswer()
    ensures Encode(LIMITS, Row(LimitColumns(SAMPLE_LIMITS, LimitTexts()))) == Spelling(LimitCells())
  {
    hide Encode, Fields, Row, Spelled, Spelling, L8, L4, Repeated, LimitColumns, Counted;
    RowSpelled(LimitCells());
    CountedAt(34);
    RepeatedAt(ANY_WORD, 34);
    assert Formats(LimitCells()) == Repeated(ANY_WORD, 34) + [Long, ANY_WORD];
    LimitsCounted();
    assert Values(LimitCells()) == LimitColumns(SAMPLE_LIMITS, LimitTexts());
  }

  lemma LimitTextsAt()
    ensures var n := LimitTexts();
            && At(n, 0) == Num(2) && At(n, 1) == Num(3) && At(n, 2) == Num(4) && At(n, 3) == Num(5)
            && At(n, 4) == Num(6) && At(n, 5) == Num(10) && At(n, 6) == Num(11) && At(n, 7) == Num(17)
            && At(n, 8) == Num(19) && At(n, 19) == Num(35) && At(n, 20) == Num(36)
            && forall i :: 9 <= i < 19 ==> At(n, i) == Num(i + 15)
  {
  }

  lemma LimitsListed()
    ensures LimitColumns(SAMPLE_LIMITS, LimitTexts())
         == [Num(1), Num(2), Num(3), Num(4), Num(5), Num(6), Num(7), Num(8), Num(9), Num(10), Num(11), Num(12),
             Num(13), Num(14), Num(15), Num(16), Num(17), Num(18), Num(19), Num(20), Num(21), Num(22), Num(23),
             Num(24), Num(25), Num(26), Num(27), Num(28), Num(29), Num(30), Num(31), Num(32), Num(33), Num(34),
             Num(35), Num(36)]
  {
    hide At, LimitTexts;
    LimitTextsAt();
  }

  lemma LimitsCounted()
    ensures var c := LimitColumns(SAMPLE_LIMITS, LimitTexts());
            |c| == 36 && forall i :: 0 <= i < 36 ==> c[i] == Num(i + 1)
  {
    hide LimitColumns, LimitTexts;
    LimitsListed();
  }

  /** The numbers of the states and kinds. */
  lemma CodeAnswers()
    ensures [ClassCode(Model), ClassCode(Gpu), ClassCode(Simulator), ClassCode(Dataset),
             ClassCode(PhysicalEnvironment), ClassCode(VirtualEnvironment), ClassCode(WorkerClass)]
         == [0, 1, 2, 3, 4, 5, 6]
    ensures [HealthCode(HealthUnknown), HealthCode(Healthy), HealthCode(Degraded), HealthCode(Unhealthy)]
         == [0, 1, 2, 3]
    ensures [ReadinessCode(ReadyUnknown), ReadinessCode(Ready), ReadinessCode(NotReady), ReadinessCode(Unsupported)]
         == [0, 1, 2, 3]
    ensures [LifecycleCode(Registered), LifecycleCode(Current), LifecycleCode(Retired), LifecycleCode(Lost)]
         == [0, 1, 2, 3]
    ensures [ScopeCode(Host), ScopeCode(NumaDomain), ScopeCode(RootComplex), ScopeCode(Rack), ScopeCode(Cluster)]
         == [0, 1, 2, 3, 4]
    ensures [RequestCode(Submitted), RequestCode(Placed), RequestCode(RequestCompleted), RequestCode(RequestFailed),
             RequestCode(RequestCancelled), RequestCode(NoPlacement)]
         == [0, 1, 2, 3, 4, 5]
    ensures [PhaseCode(Reserved), PhaseCode(Assigned), PhaseCode(Running), PhaseCode(Completed),
             PhaseCode(PlacementState.Failed), PhaseCode(Cancelled), PhaseCode(Preempted),
             PhaseCode(ReassignmentRequired), PhaseCode(LostPlacement)]
         == [0, 1, 2, 3, 4, 5, 6, 7, 8]
    ensures [StateCode(Active), StateCode(Released), StateCode(Revoked)] == [0, 1, 2]
  {
  }

  /** Weights reach from -1000 to 1000. */
  lemma WeightAccepted(naming: Naming, w: int)
    requires -0x8000_0000 <= w < 0x8000_0000
    ensures Fits(naming, Weight, Num(Wrap32(w))) <==> -1000 <= w <= 1000
  {
  }

  /** Capability names have at most 64 lower-case letters, digits, dots, underscores and hyphens. */
  lemma CapabilityAccepted(naming: Naming, id: U64, name: seq<Byte>)
    ensures TagOk(naming, Row([Num(id), Str(name)])) <==>
              id != 0 && naming(name) == id && 1 <= |name| <= 64
              && forall i :: 0 <= i < |name| ==> NameLetter(name[i] as char)
  {
    var vs := [Num(id), Str(name)];
    assert vs[1..] == [Str(name)] && vs[1..][1..] == [];
    assert Row(vs[1..]) == Cons(Str(name), Nil);
  }

  predicate NameLetter(c: char) { 'a' <= c <= 'z' || '0' <= c <= '9' || c == '.' || c == '_' || c == '-' }
}
