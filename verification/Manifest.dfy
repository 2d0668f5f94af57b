/** Building the workflow manifest from the management sheet, validating it, and the store that relies on it.

    A cell that is empty after trimming is None, as the sheet reader makes it. */
module Manifest {
  import opened Wrappers

  type Cell = Option<string>

  datatype CatalogRow = CatalogRow(workflow: Cell, entryStep: Cell)
  datatype ContractRow = ContractRow(contract: Cell, contractType: Cell)
  datatype SchemaRow = SchemaRow(common: bool, workflow: Cell, key: Cell)
  datatype Step = Step(
    workflow: Cell, id: Cell, mode: Cell, contract: Cell, inputs: seq<string>, outputs: seq<string>)
  datatype Route = Route(workflow: Cell, from: Cell, to: Cell)
  datatype StepMapping = StepMapping(workflow: Cell, step: Cell, key: Cell, direction: Cell)
  datatype ContractMapping = ContractMapping(workflow: Cell, step: Cell, contract: Cell)

  datatype EnumRow = EnumRow(group: Cell, value: Cell)

  /** The workbook: the tabs it has, and their rows. */
  datatype Sheet = Sheet(
    tabs: set<string>, enums: seq<EnumRow>, catalog: seq<CatalogRow>, contracts: seq<ContractRow>,
    schema: seq<SchemaRow>, steps: seq<Step>,
    routes: seq<Route>, stepMappings: seq<StepMapping>, contractMappings: seq<ContractMapping>)

  datatype Workflow = Workflow(
    id: string, entryStep: Cell, steps: seq<Step>, routes: seq<Route>, schema: seq<SchemaRow>,
    stepMappings: seq<StepMapping>, contractMappings: seq<ContractMapping>)

  datatype Manifest = Manifest(
    contracts: map<string, ContractRow>, common: seq<SchemaRow>, enums: map<string, seq<EnumRow>>,
    workflows: seq<Workflow>)

  datatype Problem =
    | MissingTab | MissingEnumGroup | MissingKey | DuplicateKey | UnknownWorkflow | MissingWorkflow
    | MissingStepId | DuplicateStepId | UnknownEntryStep | BadInteractionMode | UnknownContract | UndeclaredKey
    | UnknownStep

  datatype Result<T> = Ok(value: T) | Err(problem: Problem)

  function CatalogKey(r: CatalogRow): Cell { r.workflow }
  function ContractKey(r: ContractRow): Cell { r.contract }
  function StepWorkflow(r: Step): Cell { r.workflow }
  function RouteWorkflow(r: Route): Cell { r.workflow }
  function MappingWorkflow(r: StepMapping): Cell { r.workflow }
  function ContractMappingWorkflow(r: ContractMapping): Cell { r.workflow }
  function StepId(s: Step): Cell { s.id }
  function EnumGroup(r: EnumRow): Cell { r.group }

  // ---------------------------------------------------------------- unique index

  ghost predicate KeyedOnce<T(!new)>(rows: seq<T>, key: T -> Cell) {
    && (forall i :: 0 <= i < |rows| ==> key(rows[i]).Some?)
    && (forall i, j :: 0 <= i < j < |rows| ==> key(rows[i]) != key(rows[j]))
  }

  /** Row n is the first without a key of its own. */
  ghost predicate FirstBad<T(!new)>(rows: seq<T>, key: T -> Cell, n: nat)
    requires n < |rows|
  {
    KeyedOnce(rows[..n], key) && !KeyedOnce(rows[..n + 1], key)
  }

  ghost predicate Indexes<T(!new)>(index: map<string, T>, rows: seq<T>, key: T -> Cell) {
    && (forall i :: 0 <= i < |rows| && key(rows[i]).Some? ==>
          key(rows[i]).value in index && index[key(rows[i]).value] == rows[i])
    && (forall k :: k in index ==> index[k] in rows && key(index[k]) == Some(k))
  }

  lemma {:induction false} IndexStep<T(!new)>(index: map<string, T>, rows: seq<T>, row: T, key: T -> Cell, k: string)
    requires KeyedOnce(rows, key) && Indexes(index, rows, key) && key(row) == Some(k)
    ensures k !in index ==> KeyedOnce(rows + [row], key) && Indexes(index[k := row], rows + [row], key)
    ensures k in index ==> exists i :: 0 <= i < |rows| && key(rows[i]) == key(row)
  {
    var more := rows + [row];
    assert forall i :: 0 <= i < |rows| ==> more[i] == rows[i];
    if k in index {
      var i :| 0 <= i < |rows| && rows[i] == index[k];
      assert key(rows[i]) == key(row);
    }
  }

  lemma {:induction false} RepeatsKey<T(!new)>(rows: seq<T>, key: T -> Cell, n: nat)
    requires n < |rows| && KeyedOnce(rows[..n], key)
    requires exists i :: 0 <= i < n && key(rows[..n][i]) == key(rows[n])
    ensures FirstBad(rows, key, n)
  {
    var i :| 0 <= i < n && key(rows[..n][i]) == key(rows[n]);
    var more := rows[..n + 1];
    assert more[i] == rows[..n][i] && more[n] == rows[n];
  }

  /** Fails exactly when a key is missing or repeated; otherwise finds each row, and only rows, by key. */
  method UniqueIndex<T(!new)>(rows: seq<T>, key: T -> Cell) returns (r: Result<map<string, T>>)
    ensures r.Ok? <==> KeyedOnce(rows, key)
    ensures r.Ok? ==> Indexes(r.value, rows, key)
    ensures r.Err? ==>
              exists n ::
                && 0 <= n < |rows| && FirstBad(rows, key, n)
                && r.problem == if key(rows[n]).None? then MissingKey else DuplicateKey
  {
    var index: map<string, T> := map[];
    for n := 0 to |rows|
      invariant KeyedOnce(rows[..n], key)
      invariant Indexes(index, rows[..n], key)
    {
      var k := key(rows[n]);
      if k.None? {
        assert rows[..n + 1][n] == rows[n];
        assert FirstBad(rows, key, n);
        return Err(MissingKey);
      }
      IndexStep(index, rows[..n], rows[n], key, k.value);
      if k.value in index {
        RepeatsKey(rows, key, n);
        return Err(DuplicateKey);
      }
      assert rows[..n + 1] == rows[..n] + [rows[n]];
      index := index[k.value := rows[n]];
    }
    assert rows[..|rows|] == rows;
    return Ok(index);
  }

  // ---------------------------------------------------------------- grouping

  /** The rows that carry a key, in their original order. */
  function RowsBy<T>(rows: seq<T>, key: T -> Cell, k: string): seq<T> {
    if rows == [] then []
    else
      var last := rows[|rows| - 1];
      RowsBy(rows[..|rows| - 1], key, k) + if key(last) == Some(k) then [last] else []
  }

  predicate Names(ids: set<string>, c: Cell) {
    c.Some? && c.value in ids
  }

  predicate Registered<T>(rows: seq<T>, key: T -> Cell, ids: set<string>) {
    forall i :: 0 <= i < |rows| ==> Names(ids, key(rows[i]))
  }

  ghost predicate GroupedBy<T>(groups: map<string, seq<T>>, rows: seq<T>, key: T -> Cell, ids: set<string>) {
    groups.Keys == ids && forall k :: k in ids ==> groups[k] == RowsBy(rows, key, k)
  }

  lemma {:induction false} RowsByStep<T>(rows: seq<T>, row: T, key: T -> Cell, k: string)
    ensures RowsBy(rows + [row], key, k) == RowsBy(rows, key, k) + if key(row) == Some(k) then [row] else []
  {
    assert (rows + [row])[..|rows|] == rows;
  }

  lemma {:induction false} GroupStep<T>(
    groups: map<string, seq<T>>, rows: seq<T>, row: T, key: T -> Cell, ids: set<string>, k: string)
    requires GroupedBy(groups, rows, key, ids) && key(row) == Some(k) && k in ids
    ensures Registered(rows, key, ids) ==> Registered(rows + [row], key, ids)
    ensures GroupedBy(groups[k := groups[k] + [row]], rows + [row], key, ids)
  {
    forall j | j in ids ensures groups[k := groups[k] + [row]][j] == RowsBy(rows + [row], key, j) {
      RowsByStep(rows, row, key, j);
    }
  }

  /** Puts each row in the group of its workflow. */
  method GroupRows<T>(rows: seq<T>, key: T -> Cell, ids: set<string>) returns (r: Result<map<string, seq<T>>>)
    ensures r.Ok? <==> Registered(rows, key, ids)
    ensures r.Ok? ==> GroupedBy(r.value, rows, key, ids)
    ensures r.Err? ==> r.problem == UnknownWorkflow
  {
    var grouped: map<string, seq<T>> := map k | k in ids :: [];
    ghost var seen: seq<T> := [];
    for n := 0 to |rows|
      invariant seen == rows[..n]
      invariant Registered(seen, key, ids) && GroupedBy(grouped, seen, key, ids)
    {
      var row := rows[n];
      var k := key(row);
      if k.None? || k.value !in ids {
        assert !Names(ids, key(rows[n]));
        return Err(UnknownWorkflow);
      }
      GroupStep(grouped, seen, row, key, ids, k.value);
      grouped := grouped[k.value := grouped[k.value] + [row]];
      seen := seen + [row];
    }
    assert seen == rows;
    return Ok(grouped);
  }

  function CountOver<T>(ids: seq<string>, rows: seq<T>, key: T -> Cell): nat {
    if ids == [] then 0
    else CountOver(ids[..|ids| - 1], rows, key) + |RowsBy(rows, key, ids[|ids| - 1])|
  }

  predicate Distinct(ids: seq<string>) {
    forall i, j :: 0 <= i < j < |ids| ==> ids[i] != ids[j]
  }

  /** No row is lost and none is filed twice: the groups of distinct workflows have as many rows as the sheet. */
  lemma {:induction false} GroupsPartition<T>(ids: seq<string>, rows: seq<T>, key: T -> Cell)
    requires Distinct(ids)
    requires forall i :: 0 <= i < |rows| ==> key(rows[i]).Some? && key(rows[i]).value in ids
    ensures CountOver(ids, rows, key) == |rows|
  {
    if rows == [] {
      NothingCounted(ids, rows, key);
    } else {
      var n := |rows| - 1;
      GroupsPartition(ids, rows[..n], key);
      OneMore(ids, rows, key);
    }
  }

  lemma {:induction false} NothingCounted<T>(ids: seq<string>, rows: seq<T>, key: T -> Cell)
    requires rows == []
    ensures CountOver(ids, rows, key) == 0
  {
    if ids != [] {
      NothingCounted(ids[..|ids| - 1], rows, key);
    }
  }

  lemma {:induction false} OneMore<T>(ids: seq<string>, rows: seq<T>, key: T -> Cell)
    requires Distinct(ids) && rows != []
    ensures var last := key(rows[|rows| - 1]);
            CountOver(ids, rows, key) ==
            CountOver(ids, rows[..|rows| - 1], key) + if last.Some? && last.value in ids then 1 else 0
  {
    if ids != [] {
      var m := |ids| - 1;
      OneMore(ids[..m], rows, key);
      assert ids == ids[..m] + [ids[m]];
    }
  }

  // ---------------------------------------------------------------- well-formed manifests

  const INTERACTION_MODES: set<string> := {"agent_internal", "backend_tool_api", "webhook", "webhook_then_resume"}

  function KeysOf(rows: seq<SchemaRow>): set<string> {
    set r | r in rows && r.key.Some? :: r.key.value
  }

  function StepIds(steps: seq<Step>): set<string> {
    set s | s in steps && s.id.Some? :: s.id.value
  }

  predicate StepFits(s: Step, contracts: set<string>, keys: set<string>) {
    && Names(INTERACTION_MODES, s.mode)
    && (s.contract.Some? ==> s.contract.value in contracts)
    && (forall k :: k in s.inputs + s.outputs ==> k in keys)
  }

  predicate RouteFits(r: Route, ids: set<string>) {
    Names(ids, r.from) && (r.to == Some("END") || Names(ids, r.to))
  }

  predicate MappingFits(m: StepMapping, ids: set<string>, keys: set<string>) {
    Names(ids, m.step) && Names(keys, m.key)
  }

  predicate ContractMappingFits(m: ContractMapping, ids: set<string>, contracts: set<string>) {
    Names(ids, m.step) && Names(contracts, m.contract)
  }

  /** Every reference inside a workflow resolves. */
  ghost predicate Resolves(w: Workflow, contracts: set<string>, common: set<string>) {
    var ids, keys := StepIds(w.steps), common + KeysOf(w.schema);
    && KeyedOnce(w.steps, StepId)
    && Names(ids, w.entryStep)
    && (forall i :: 0 <= i < |w.steps| ==> StepFits(w.steps[i], contracts, keys))
    && (forall i :: 0 <= i < |w.routes| ==> RouteFits(w.routes[i], ids))
    && (forall i :: 0 <= i < |w.stepMappings| ==> MappingFits(w.stepMappings[i], ids, keys))
    && (forall i :: 0 <= i < |w.contractMappings| ==> ContractMappingFits(w.contractMappings[i], ids, contracts))
  }

  ghost predicate WellFormed(m: Manifest) {
    forall i :: 0 <= i < |m.workflows| ==> Resolves(m.workflows[i], m.contracts.Keys, KeysOf(m.common))
  }

  // ---------------------------------------------------------------- validation

  /** The problems of a sheet that can be read: something a workflow refers to is missing, or named twice. */
  predicate IsReference(p: Problem) {
    match p
    case MissingTab => false
    case MissingEnumGroup => false
    case MissingKey => false
    case DuplicateKey => false
    case UnknownWorkflow => false
    case MissingWorkflow => false
    case _ => true
  }

  method CollectStepIds(steps: seq<Step>) returns (r: Result<set<string>>)
    ensures r.Ok? <==> KeyedOnce(steps, StepId)
    ensures r.Ok? ==> r.value == StepIds(steps)
    ensures r.Err? ==>
              exists n ::
                && 0 <= n < |steps| && FirstBad(steps, StepId, n)
                && r.problem == if steps[n].id.None? then MissingStepId else DuplicateStepId
  {
    var ids: set<string> := {};
    for n := 0 to |steps|
      invariant KeyedOnce(steps[..n], StepId)
      invariant ids == StepIds(steps[..n])
    {
      if steps[n].id.None? {
        assert StepId(steps[n]).None? && steps[..n + 1][n] == steps[n];
        assert FirstBad(steps, StepId, n);
        return Err(MissingStepId);
      }
      if steps[n].id.value in ids {
        ghost var s :| s in steps[..n] && s.id == steps[n].id;
        ghost var i :| 0 <= i < n && steps[i] == s;
        assert StepId(steps[..n][i]) == StepId(steps[n]);
        RepeatsKey(steps, StepId, n);
        return Err(DuplicateStepId);
      }
      assert steps[..n + 1] == steps[..n] + [steps[n]];
      ids := ids + {steps[n].id.value};
    }
    assert steps[..|steps|] == steps;
    return Ok(ids);
  }

  method CheckStep(s: Step, contracts: set<string>, keys: set<string>) returns (p: Option<Problem>)
    ensures p.None? <==> StepFits(s, contracts, keys)
    ensures p == if !Names(INTERACTION_MODES, s.mode) then Some(BadInteractionMode)
                 else if s.contract.Some? && s.contract.value !in contracts then Some(UnknownContract)
                 else if exists k :: k in s.inputs + s.outputs && k !in keys then Some(UndeclaredKey)
                 else None
  {
    if s.mode.None? || s.mode.value !in INTERACTION_MODES {
      return Some(BadInteractionMode);
    }
    if s.contract.Some? && s.contract.value !in contracts {
      return Some(UnknownContract);
    }
    var used := s.inputs + s.outputs;
    for n := 0 to |used|
      invariant forall k :: k in used[..n] ==> k in keys
    {
      if used[n] !in keys {
        assert used[n] in used;
        return Some(UndeclaredKey);
      }
    }
    assert used[..|used|] == used;
    return None;
  }

  method ValidateWorkflow(w: Workflow, contracts: set<string>, common: set<string>) returns (p: Option<Problem>)
    ensures p.None? <==> Resolves(w, contracts, common)
    ensures p.Some? ==> IsReference(p.value)
  {
    var collected := CollectStepIds(w.steps);
    if collected.Err? {
      return Some(collected.problem);
    }
    var ids := collected.value;
    if w.entryStep.None? || w.entryStep.value !in ids {
      return Some(UnknownEntryStep);
    }
    var keys := common + KeysOf(w.schema);
    for n := 0 to |w.steps|
      invariant forall i :: 0 <= i < n ==> StepFits(w.steps[i], contracts, keys)
    {
      p := CheckStep(w.steps[n], contracts, keys);
      if p.Some? {
        return;
      }
    }
    for n := 0 to |w.routes|
      invariant forall i :: 0 <= i < n ==> RouteFits(w.routes[i], ids)
    {
      if !RouteFits(w.routes[n], ids) {
        return Some(UnknownStep);
      }
    }
    for n := 0 to |w.stepMappings|
      invariant forall i :: 0 <= i < n ==> MappingFits(w.stepMappings[i], ids, keys)
    {
      if !Names(ids, w.stepMappings[n].step) {
        return Some(UnknownStep);
      }
      if !Names(keys, w.stepMappings[n].key) {
        return Some(UndeclaredKey);
      }
    }
    for n := 0 to |w.contractMappings|
      invariant forall i :: 0 <= i < n ==> ContractMappingFits(w.contractMappings[i], ids, contracts)
    {
      if !Names(ids, w.contractMappings[n].step) {
        return Some(UnknownStep);
      }
      if !Names(contracts, w.contractMappings[n].contract) {
        return Some(UnknownContract);
      }
    }
    return None;
  }

  /** Succeeds exactly when every reference resolves. */
  method ValidateManifest(m: Manifest) returns (p: Option<Problem>)
    ensures p.None? <==> WellFormed(m)
    ensures p.Some? ==> IsReference(p.value)
  {
    for n := 0 to |m.workflows|
      invariant forall i :: 0 <= i < n ==> Resolves(m.workflows[i], m.contracts.Keys, KeysOf(m.common))
    {
      p := ValidateWorkflow(m.workflows[n], m.contracts.Keys, KeysOf(m.common));
      if p.Some? {
        return;
      }
    }
    return None;
  }

  // ---------------------------------------------------------------- building

  function CommonRows(rows: seq<SchemaRow>): seq<SchemaRow> {
    if rows == [] then []
    else CommonRows(rows[..|rows| - 1]) + if rows[|rows| - 1].common then [rows[|rows| - 1]] else []
  }

  /** The workflow a schema row is filed under; common rows are filed under none. */
  function SchemaWorkflow(r: SchemaRow): Cell {
    if r.common then None else r.workflow
  }

  function WorkflowAt(sheet: Sheet, id: string, entryStep: Cell): Workflow {
    Workflow(id, entryStep,
             RowsBy(sheet.steps, StepWorkflow, id),
             RowsBy(sheet.routes, RouteWorkflow, id),
             RowsBy(sheet.schema, SchemaWorkflow, id),
             RowsBy(sheet.stepMappings, MappingWorkflow, id),
             RowsBy(sheet.contractMappings, ContractMappingWorkflow, id))
  }

  function CatalogIds(rows: seq<CatalogRow>): set<string> {
    set r | r in rows && r.workflow.Some? :: r.workflow.value
  }

  function ContractKeys(rows: seq<ContractRow>): set<string> {
    set r | r in rows && r.contract.Some? :: r.contract.value
  }

  predicate AllRegistered(sheet: Sheet, ids: set<string>) {
    && Registered(sheet.steps, StepWorkflow, ids)
    && Registered(sheet.routes, RouteWorkflow, ids)
    && Registered(sheet.stepMappings, MappingWorkflow, ids)
    && Registered(sheet.contractMappings, ContractMappingWorkflow, ids)
  }

  predicate AllFiled(rows: seq<SchemaRow>) {
    forall i :: 0 <= i < |rows| ==> rows[i].common || rows[i].workflow.Some?
  }

  /** The workflow of a catalog row, with the rows of its own. */
  function WorkflowOf(sheet: Sheet, row: CatalogRow): Workflow {
    WorkflowAt(sheet, if row.workflow.Some? then row.workflow.value else "", row.entryStep)
  }

  function EnumGroups(rows: seq<EnumRow>): set<string> {
    set r | r in rows && r.group.Some? :: r.group.value
  }

  function GroupOf(enums: map<string, seq<EnumRow>>, g: string): seq<EnumRow> {
    if g in enums then enums[g] else []
  }

  lemma {:induction false} EnumGroupsStep(rows: seq<EnumRow>, row: EnumRow, g: string)
    requires row.group == Some(g)
    ensures EnumGroups(rows + [row]) == EnumGroups(rows) + {g}
  {
  }

  lemma {:induction false} EnumStep(
    enums: map<string, seq<EnumRow>>, rows: seq<EnumRow>, groups: set<string>, row: EnumRow, g: string)
    requires GroupedBy(enums, rows, EnumGroup, groups) && row.group == Some(g)
    requires g !in groups ==> RowsBy(rows, EnumGroup, g) == []
    ensures GroupedBy(enums[g := GroupOf(enums, g) + [row]], rows + [row], EnumGroup, groups + {g})
  {
    var next := enums[g := GroupOf(enums, g) + [row]];
    forall k | k in next ensures next[k] == RowsBy(rows + [row], EnumGroup, k) {
      RowsByStep(rows, row, EnumGroup, k);
    }
  }

  ghost predicate EnumsGrouped(enums: map<string, seq<EnumRow>>, rows: seq<EnumRow>) {
    GroupedBy(enums, rows, EnumGroup, EnumGroups(rows))
  }

  lemma {:induction false} EnumAdded(enums: map<string, seq<EnumRow>>, rows: seq<EnumRow>, row: EnumRow, g: string)
    requires EnumsGrouped(enums, rows) && row.group == Some(g)
    ensures EnumsGrouped(enums[g := GroupOf(enums, g) + [row]], rows + [row])
  {
    if g !in EnumGroups(rows) {
      NoRows(rows, g);
    }
    EnumStep(enums, rows, EnumGroups(rows), row, g);
    EnumGroupsStep(rows, row, g);
  }

  predicate AllGrouped(rows: seq<EnumRow>) {
    forall i :: 0 <= i < |rows| ==> rows[i].group.Some?
  }

  /** Groups the enum rows; a group is opened by its first row. */
  method GroupEnums(rows: seq<EnumRow>) returns (r: Result<map<string, seq<EnumRow>>>)
    ensures r.Ok? <==> AllGrouped(rows)
    ensures r.Ok? ==> EnumsGrouped(r.value, rows)
    ensures r.Err? ==> r.problem == MissingEnumGroup
  {
    var enums: map<string, seq<EnumRow>> := map[];
    ghost var seen: seq<EnumRow> := [];
    for n := 0 to |rows|
      invariant seen == rows[..n]
      invariant AllGrouped(seen) && EnumsGrouped(enums, seen)
    {
      var row := rows[n];
      if row.group.None? {
        return Err(MissingEnumGroup);
      }
      EnumAdded(enums, seen, row, row.group.value);
      enums := enums[row.group.value := GroupOf(enums, row.group.value) + [row]];
      seen := seen + [row];
    }
    assert seen == rows;
    return Ok(enums);
  }

  lemma {:induction false} NoRows(rows: seq<EnumRow>, g: string)
    requires g !in EnumGroups(rows)
    ensures RowsBy(rows, EnumGroup, g) == []
  {
    if rows != [] {
      assert rows == rows[..|rows| - 1] + [rows[|rows| - 1]];
      NoRows(rows[..|rows| - 1], g);
    }
  }

  const TABS: set<string> := {
    "Workflow Catalog", "Workflow Steps", "Workflow Routes", "Workflow Data Schema", "Step Data Mapping",
    "Contract Registry", "Contract Mapping", "Enum Registry"}

  /** The sheets that have all tabs and whose rows all find their place. */
  ghost predicate Readable(sheet: Sheet) {
    && TABS <= sheet.tabs
    && AllGrouped(sheet.enums)
    && KeyedOnce(sheet.catalog, CatalogKey)
    && KeyedOnce(sheet.contracts, ContractKey)
    && AllFiled(sheet.schema)
    && AllRegistered(sheet, CatalogIds(sheet.catalog))
  }

  function WorkflowsOf(sheet: Sheet): seq<Workflow> {
    seq(|sheet.catalog|, i requires 0 <= i < |sheet.catalog| => WorkflowOf(sheet, sheet.catalog[i]))
  }

  /** The sheets a manifest can be built from. */
  ghost predicate Buildable(sheet: Sheet) {
    && Readable(sheet)
    && forall i :: 0 <= i < |sheet.catalog| ==>
         Resolves(WorkflowOf(sheet, sheet.catalog[i]), ContractKeys(sheet.contracts), KeysOf(CommonRows(sheet.schema)))
  }

  lemma {:induction false} BuildableIff(sheet: Sheet, m: Manifest)
    requires Readable(sheet) && m.workflows == WorkflowsOf(sheet)
    requires m.contracts.Keys == ContractKeys(sheet.contracts) && m.common == CommonRows(sheet.schema)
    ensures WellFormed(m) <==> Buildable(sheet)
  {
    assert forall i :: 0 <= i < |sheet.catalog| ==> m.workflows[i] == WorkflowOf(sheet, sheet.catalog[i]);
  }

  method SplitSchema(rows: seq<SchemaRow>) returns (r: Result<seq<SchemaRow>>)
    ensures r.Ok? <==> AllFiled(rows)
    ensures r.Ok? ==> r.value == CommonRows(rows)
    ensures r.Err? ==> r.problem == MissingWorkflow
  {
    var common: seq<SchemaRow> := [];
    for n := 0 to |rows|
      invariant AllFiled(rows[..n])
      invariant common == CommonRows(rows[..n])
    {
      assert rows[..n + 1][..n] == rows[..n];
      if rows[n].common {
        common := common + [rows[n]];
      } else if rows[n].workflow.None? {
        return Err(MissingWorkflow);
      }
    }
    assert rows[..|rows|] == rows;
    return Ok(common);
  }

  lemma {:induction false} IndexKeys(index: map<string, ContractRow>, rows: seq<ContractRow>)
    requires Indexes(index, rows, ContractKey)
    ensures index.Keys == ContractKeys(rows)
  {
    forall k | k in ContractKeys(rows) ensures k in index {
      var r :| r in rows && r.contract == Some(k);
      var i :| 0 <= i < |rows| && rows[i] == r;
    }
  }

  lemma {:induction false} CatalogKeys(index: map<string, CatalogRow>, rows: seq<CatalogRow>)
    requires Indexes(index, rows, CatalogKey) && KeyedOnce(rows, CatalogKey)
    ensures index.Keys == CatalogIds(rows) && Registered(rows, CatalogKey, CatalogIds(rows))
  {
    forall k | k in CatalogIds(rows) ensures k in index {
      var r :| r in rows && r.workflow == Some(k);
      var i :| 0 <= i < |rows| && rows[i] == r;
    }
  }

  datatype Groups = Groups(
    steps: map<string, seq<Step>>, routes: map<string, seq<Route>>, stepMappings: map<string, seq<StepMapping>>,
    contractMappings: map<string, seq<ContractMapping>>)

  ghost predicate GroupsOf(g: Groups, sheet: Sheet, ids: set<string>) {
    && GroupedBy(g.steps, sheet.steps, StepWorkflow, ids)
    && GroupedBy(g.routes, sheet.routes, RouteWorkflow, ids)
    && GroupedBy(g.stepMappings, sheet.stepMappings, MappingWorkflow, ids)
    && GroupedBy(g.contractMappings, sheet.contractMappings, ContractMappingWorkflow, ids)
  }

  method GroupSheet(sheet: Sheet, ids: set<string>) returns (r: Result<Groups>)
    ensures r.Ok? <==> AllRegistered(sheet, ids)
    ensures r.Ok? ==> GroupsOf(r.value, sheet, ids)
    ensures r.Err? ==> r.problem == UnknownWorkflow
  {
    var steps := GroupRows(sheet.steps, StepWorkflow, ids);
    if steps.Err? { return Err(steps.problem); }
    var routes := GroupRows(sheet.routes, RouteWorkflow, ids);
    if routes.Err? { return Err(routes.problem); }
    var mappings := GroupRows(sheet.stepMappings, MappingWorkflow, ids);
    if mappings.Err? { return Err(mappings.problem); }
    var contractMappings := GroupRows(sheet.contractMappings, ContractMappingWorkflow, ids);
    if contractMappings.Err? { return Err(contractMappings.problem); }
    return Ok(Groups(steps.value, routes.value, mappings.value, contractMappings.value));
  }

  method Assemble(sheet: Sheet, g: Groups, ids: set<string>) returns (workflows: seq<Workflow>)
    requires GroupsOf(g, sheet, ids) && Registered(sheet.catalog, CatalogKey, ids)
    ensures workflows == WorkflowsOf(sheet)
  {
    workflows := [];
    for n := 0 to |sheet.catalog|
      invariant |workflows| == n
      invariant forall i :: 0 <= i < n ==> workflows[i] == WorkflowOf(sheet, sheet.catalog[i])
    {
      var row := sheet.catalog[n];
      assert Names(ids, CatalogKey(row));
      var id := row.workflow.value;
      workflows := workflows + [Workflow(id, row.entryStep, g.steps[id], g.routes[id],
                                         RowsBy(sheet.schema, SchemaWorkflow, id), g.stepMappings[id],
                                         g.contractMappings[id])];
    }
  }

  method IndexCatalog(sheet: Sheet) returns (r: Result<set<string>>)
    ensures r.Ok? <==> KeyedOnce(sheet.catalog, CatalogKey)
    ensures r.Ok? ==> r.value == CatalogIds(sheet.catalog) && Registered(sheet.catalog, CatalogKey, r.value)
    ensures r.Err? ==> r.problem == MissingKey || r.problem == DuplicateKey
  {
    var catalog := UniqueIndex(sheet.catalog, CatalogKey);
    if catalog.Err? { return Err(catalog.problem); }
    CatalogKeys(catalog.value, sheet.catalog);
    return Ok(catalog.value.Keys);
  }

  method IndexContracts(sheet: Sheet) returns (r: Result<map<string, ContractRow>>)
    ensures r.Ok? <==> KeyedOnce(sheet.contracts, ContractKey)
    ensures r.Ok? ==> r.value.Keys == ContractKeys(sheet.contracts) && Indexes(r.value, sheet.contracts, ContractKey)
    ensures r.Err? ==> r.problem == MissingKey || r.problem == DuplicateKey
  {
    r := UniqueIndex(sheet.contracts, ContractKey);
    if r.Ok? {
      IndexKeys(r.value, sheet.contracts);
    }
  }

  /** The problem reported is one the sheet has; references are looked at only in a sheet that can be read. */
  ghost predicate Caused(sheet: Sheet, p: Problem) {
    match p
    case MissingTab => !(TABS <= sheet.tabs)
    case MissingEnumGroup => !AllGrouped(sheet.enums)
    case MissingKey => !KeyedOnce(sheet.catalog, CatalogKey) || !KeyedOnce(sheet.contracts, ContractKey)
    case DuplicateKey => !KeyedOnce(sheet.catalog, CatalogKey) || !KeyedOnce(sheet.contracts, ContractKey)
    case UnknownWorkflow => !AllRegistered(sheet, CatalogIds(sheet.catalog))
    case MissingWorkflow => !AllFiled(sheet.schema)
    case _ => Readable(sheet) && !Buildable(sheet)
  }

  method ReadSheet(sheet: Sheet) returns (r: Result<Manifest>)
    ensures r.Ok? <==> Readable(sheet)
    ensures r.Ok? ==> r.value.workflows == WorkflowsOf(sheet) && r.value.common == CommonRows(sheet.schema)
    ensures r.Ok? ==> r.value.contracts.Keys == ContractKeys(sheet.contracts)
    ensures r.Ok? ==> Indexes(r.value.contracts, sheet.contracts, ContractKey)
    ensures r.Ok? ==> EnumsGrouped(r.value.enums, sheet.enums)
    ensures r.Err? ==> Caused(sheet, r.problem) && !IsReference(r.problem)
  {
    if !(TABS <= sheet.tabs) { return Err(MissingTab); }
    var ids := IndexCatalog(sheet);
    if ids.Err? { return Err(ids.problem); }
    var contracts := IndexContracts(sheet);
    if contracts.Err? { return Err(contracts.problem); }
    var common := SplitSchema(sheet.schema);
    if common.Err? { return Err(common.problem); }
    var groups := GroupSheet(sheet, ids.value);
    if groups.Err? { return Err(groups.problem); }
    var workflows := Assemble(sheet, groups.value, ids.value);
    var enums := GroupEnums(sheet.enums);
    if enums.Err? { return Err(enums.problem); }
    return Ok(Manifest(contracts.value, common.value, enums.value, workflows));
  }

  /** Succeeds exactly on buildable sheets; each workflow then holds exactly its own rows, in sheet order. */
  method BuildManifest(sheet: Sheet) returns (r: Result<Manifest>)
    ensures r.Ok? <==> Buildable(sheet)
    ensures r.Ok? ==> WellFormed(r.value) && AllHold(sheet, r.value.workflows)
    ensures r.Ok? ==> Selects(r.value.common, sheet.schema, (row: SchemaRow) => row.common)
    ensures r.Ok? ==> Indexes(r.value.contracts, sheet.contracts, ContractKey)
    ensures r.Ok? ==> EnumsGrouped(r.value.enums, sheet.enums)
    ensures r.Err? ==> Caused(sheet, r.problem)
    ensures r.Ok? ==>
              && TotalOf(r.value.workflows, StepsIn) == |sheet.steps|
              && TotalOf(r.value.workflows, RoutesIn) == |sheet.routes|
              && TotalOf(r.value.workflows, StepMappingsIn) == |sheet.stepMappings|
              && TotalOf(r.value.workflows, ContractMappingsIn) == |sheet.contractMappings|
  {
    r := ReadSheet(sheet);
    if r.Ok? {
      NothingIsLost(sheet);
      WorkflowsHold(sheet);
      CommonSelects(sheet.schema);
      BuildableIff(sheet, r.value);
      var p := ValidateManifest(r.value);
      if p.Some? {
        return Err(p.value);
      }
    }
  }

  // ---------------------------------------------------------------- nothing is lost

  /** A count over the workflows of a manifest. */
  function TotalOf(ws: seq<Workflow>, count: Workflow -> nat): nat {
    if ws == [] then 0 else TotalOf(ws[..|ws| - 1], count) + count(ws[|ws| - 1])
  }

  function StepsIn(w: Workflow): nat { |w.steps| }
  function RoutesIn(w: Workflow): nat { |w.routes| }
  function StepMappingsIn(w: Workflow): nat { |w.stepMappings| }
  function ContractMappingsIn(w: Workflow): nat { |w.contractMappings| }

  function IdOf(row: CatalogRow): string {
    if row.workflow.Some? then row.workflow.value else ""
  }

  function IdsOf(rows: seq<CatalogRow>): (ids: seq<string>)
    ensures |ids| == |rows|
    ensures forall i :: 0 <= i < |rows| ==> ids[i] == IdOf(rows[i])
  {
    seq(|rows|, i requires 0 <= i < |rows| => IdOf(rows[i]))
  }

  /** The count is of the rows of one kind. */
  ghost predicate Counts<T>(sheet: Sheet, count: Workflow -> nat, rows: seq<T>, key: T -> Cell) {
    forall row: CatalogRow :: count(WorkflowOf(sheet, row)) == |RowsBy(rows, key, IdOf(row))|
  }

  lemma {:induction false} TotalIsCount<T>(
    sheet: Sheet, catalog: seq<CatalogRow>, ws: seq<Workflow>, count: Workflow -> nat, rows: seq<T>, key: T -> Cell)
    requires Counts(sheet, count, rows, key)
    requires |ws| == |catalog| && forall i :: 0 <= i < |ws| ==> ws[i] == WorkflowOf(sheet, catalog[i])
    ensures TotalOf(ws, count) == CountOver(IdsOf(catalog), rows, key)
    decreases |ws|
  {
    if ws != [] {
      var n := |ws| - 1;
      TotalIsCount(sheet, catalog[..n], ws[..n], count, rows, key);
      assert IdsOf(catalog)[..n] == IdsOf(catalog[..n]);
      assert count(ws[n]) == |RowsBy(rows, key, IdOf(catalog[n]))|;
    }
  }

  lemma {:induction false} IdsAreDistinct(catalog: seq<CatalogRow>)
    requires KeyedOnce(catalog, CatalogKey)
    ensures Distinct(IdsOf(catalog)) && forall id :: id in CatalogIds(catalog) ==> id in IdsOf(catalog)
  {
    forall i, j | 0 <= i < j < |catalog| ensures IdsOf(catalog)[i] != IdsOf(catalog)[j] {
      assert CatalogKey(catalog[i]) != CatalogKey(catalog[j]);
      assert CatalogKey(catalog[i]).Some? && CatalogKey(catalog[j]).Some?;
    }
    forall id | id in CatalogIds(catalog) ensures id in IdsOf(catalog) {
      var row :| row in catalog && row.workflow == Some(id);
      var i :| 0 <= i < |catalog| && catalog[i] == row;
      assert IdsOf(catalog)[i] == id;
    }
  }

  lemma {:induction false} RowsAreKept<T>(sheet: Sheet, count: Workflow -> nat, rows: seq<T>, key: T -> Cell)
    requires KeyedOnce(sheet.catalog, CatalogKey) && Registered(rows, key, CatalogIds(sheet.catalog))
    requires Counts(sheet, count, rows, key)
    ensures TotalOf(WorkflowsOf(sheet), count) == |rows|
  {
    var ids := IdsOf(sheet.catalog);
    IdsAreDistinct(sheet.catalog);
    forall i | 0 <= i < |rows| ensures key(rows[i]).Some? && key(rows[i]).value in ids {
      assert Names(CatalogIds(sheet.catalog), key(rows[i]));
    }
    GroupsPartition(ids, rows, key);
    TotalIsCount(sheet, sheet.catalog, WorkflowsOf(sheet), count, rows, key);
  }

  /** On every sheet a manifest is built from, the workflows together hold every step, route and mapping row, none
      lost and none twice. */
  lemma {:induction false} NothingIsLost(sheet: Sheet)
    requires Readable(sheet)
    ensures var ws := WorkflowsOf(sheet);
            && TotalOf(ws, StepsIn) == |sheet.steps|
            && TotalOf(ws, RoutesIn) == |sheet.routes|
            && TotalOf(ws, StepMappingsIn) == |sheet.stepMappings|
            && TotalOf(ws, ContractMappingsIn) == |sheet.contractMappings|
  {
    RowsAreKept(sheet, StepsIn, sheet.steps, StepWorkflow);
    RowsAreKept(sheet, RoutesIn, sheet.routes, RouteWorkflow);
    RowsAreKept(sheet, StepMappingsIn, sheet.stepMappings, MappingWorkflow);
    RowsAreKept(sheet, ContractMappingsIn, sheet.contractMappings, ContractMappingWorkflow);
  }

  // ---------------------------------------------------------------- each workflow has its own rows

  /** The part is made of the rows at these places, in their order, and these are the places of the wanted rows. */
  ghost predicate SelectsAt<T(!new)>(part: seq<T>, rows: seq<T>, want: T -> bool, at: seq<nat>) {
    && |at| == |part|
    && (forall j :: 0 <= j < |at| ==> at[j] < |rows| && part[j] == rows[at[j]])
    && (forall i, j :: 0 <= i < j < |at| ==> at[i] < at[j])
    && (forall i :: 0 <= i < |rows| ==> (i in at <==> want(rows[i])))
  }

  /** The part is the wanted rows, each as often as it stands in the sheet, in sheet order. */
  ghost predicate Selects<T(!new)>(part: seq<T>, rows: seq<T>, want: T -> bool) {
    exists at: seq<nat> :: SelectsAt(part, rows, want, at)
  }

  lemma {:induction false} SelectWanted<T(!new)>(
    part: seq<T>, rows: seq<T>, row: T, want: T -> bool, at: seq<nat>)
    requires SelectsAt(part, rows, want, at) && want(row)
    ensures SelectsAt(part + [row], rows + [row], want, at + [|rows|])
  {
    var more, places := rows + [row], at + [|rows|];
    forall i | 0 <= i < |more| ensures i in places <==> want(more[i]) {
      assert i in places <==> i in at || i == |rows|;
      if i < |rows| { assert more[i] == rows[i]; } else { assert forall j :: 0 <= j < |at| ==> at[j] < |rows|; }
    }
  }

  lemma {:induction false} SelectUnwanted<T(!new)>(
    part: seq<T>, rows: seq<T>, row: T, want: T -> bool, at: seq<nat>)
    requires SelectsAt(part, rows, want, at) && !want(row)
    ensures SelectsAt(part, rows + [row], want, at)
  {
    var more := rows + [row];
    forall i | 0 <= i < |more| ensures i in at <==> want(more[i]) {
      if i < |rows| { assert more[i] == rows[i]; } else { assert forall j :: 0 <= j < |at| ==> at[j] < |rows|; }
    }
  }

  lemma {:induction false} SelectMore<T(!new)>(part: seq<T>, rows: seq<T>, row: T, want: T -> bool)
    requires Selects(part, rows, want)
    ensures Selects(part + if want(row) then [row] else [], rows + [row], want)
  {
    var at: seq<nat> :| SelectsAt(part, rows, want, at);
    if want(row) {
      SelectWanted(part, rows, row, want, at);
    } else {
      assert part + [] == part;
      SelectUnwanted(part, rows, row, want, at);
    }
  }

  lemma {:induction false} RowsBySelects<T(!new)>(rows: seq<T>, key: T -> Cell, k: string, want: T -> bool)
    requires forall row :: want(row) <==> key(row) == Some(k)
    ensures Selects(RowsBy(rows, key, k), rows, want)
  {
    if rows == [] {
      assert SelectsAt(RowsBy(rows, key, k), rows, want, []);
    } else {
      var n := |rows| - 1;
      RowsBySelects(rows[..n], key, k, want);
      SelectMore(RowsBy(rows[..n], key, k), rows[..n], rows[n], want);
      assert rows == rows[..n] + [rows[n]];
    }
  }

  lemma {:induction false} CommonSelects(rows: seq<SchemaRow>)
    ensures Selects(CommonRows(rows), rows, (r: SchemaRow) => r.common)
  {
    if rows == [] {
      assert SelectsAt(CommonRows(rows), rows, (r: SchemaRow) => r.common, []);
    } else {
      var n := |rows| - 1;
      CommonSelects(rows[..n]);
      SelectMore(CommonRows(rows[..n]), rows[..n], rows[n], (r: SchemaRow) => r.common);
      assert rows == rows[..n] + [rows[n]];
    }
  }

  /** A workflow of the manifest: the id and the entry step of its catalog row, and exactly the rows that name it; of
      the schema only those that are not common to all. */
  ghost predicate Holds(sheet: Sheet, row: CatalogRow, w: Workflow) {
    && row.workflow == Some(w.id) && w.entryStep == row.entryStep
    && Selects(w.steps, sheet.steps, (r: Step) => r.workflow == Some(w.id))
    && Selects(w.routes, sheet.routes, (r: Route) => r.workflow == Some(w.id))
    && Selects(w.schema, sheet.schema, (r: SchemaRow) => !r.common && r.workflow == Some(w.id))
    && Selects(w.stepMappings, sheet.stepMappings, (r: StepMapping) => r.workflow == Some(w.id))
    && Selects(w.contractMappings, sheet.contractMappings, (r: ContractMapping) => r.workflow == Some(w.id))
  }

  lemma {:induction false} WorkflowHolds(sheet: Sheet, row: CatalogRow)
    requires row.workflow.Some?
    ensures Holds(sheet, row, WorkflowOf(sheet, row))
  {
    var id := row.workflow.value;
    RowsBySelects(sheet.steps, StepWorkflow, id, (r: Step) => r.workflow == Some(id));
    RowsBySelects(sheet.routes, RouteWorkflow, id, (r: Route) => r.workflow == Some(id));
    RowsBySelects(sheet.schema, SchemaWorkflow, id, (r: SchemaRow) => !r.common && r.workflow == Some(id));
    RowsBySelects(sheet.stepMappings, MappingWorkflow, id, (r: StepMapping) => r.workflow == Some(id));
    RowsBySelects(sheet.contractMappings, ContractMappingWorkflow, id, (r: ContractMapping) => r.workflow == Some(id));
  }

  ghost predicate AllHold(sheet: Sheet, ws: seq<Workflow>) {
    |ws| == |sheet.catalog| && forall i :: 0 <= i < |ws| ==> Holds(sheet, sheet.catalog[i], ws[i])
  }

  /** The workflows of a manifest are those of the catalog, in its order, each with its own rows. */
  lemma {:induction false} WorkflowsHold(sheet: Sheet)
    requires KeyedOnce(sheet.catalog, CatalogKey)
    ensures AllHold(sheet, WorkflowsOf(sheet))
  {
    forall i | 0 <= i < |sheet.catalog| ensures Holds(sheet, sheet.catalog[i], WorkflowsOf(sheet)[i]) {
      assert CatalogKey(sheet.catalog[i]).Some?;
      WorkflowHolds(sheet, sheet.catalog[i]);
    }
  }

  // ---------------------------------------------------------------- what a validated manifest guarantees

  /** A walk along routes, from the entry step on. */
  ghost predicate Walks(w: Workflow, path: seq<Cell>) {
    && path != [] && path[0] == w.entryStep
    && forall i :: 0 <= i < |path| - 1 ==> exists r :: r in w.routes && r.from == path[i] && r.to == path[i + 1]
  }

  lemma {:induction false} RoutesStayDeclared(w: Workflow, contracts: set<string>, common: set<string>, r: Route)
    requires Resolves(w, contracts, common) && r in w.routes
    ensures RouteFits(r, StepIds(w.steps))
  {
    var n :| 0 <= n < |w.routes| && w.routes[n] == r;
  }

  lemma {:induction false} EntryIsDeclared(m: Manifest, i: nat)
    requires WellFormed(m) && i < |m.workflows|
    ensures Names(StepIds(m.workflows[i].steps), m.workflows[i].entryStep)
    ensures forall r :: r in m.workflows[i].routes ==> RouteFits(r, StepIds(m.workflows[i].steps))
  {
    var w := m.workflows[i];
    forall r | r in w.routes ensures RouteFits(r, StepIds(w.steps)) {
      RoutesStayDeclared(w, m.contracts.Keys, KeysOf(m.common), r);
    }
  }

  /** Every walk stays on declared steps, except that its last place may be END. */
  lemma {:induction false} WalksStayDeclared(m: Manifest, i: nat, path: seq<Cell>, k: nat)
    requires WellFormed(m) && i < |m.workflows| && Walks(m.workflows[i], path) && k < |path|
    ensures var ids := StepIds(m.workflows[i].steps);
            if k < |path| - 1 then Names(ids, path[k]) else Names(ids, path[k]) || path[k] == Some("END")
  {
    EntryIsDeclared(m, i);
    PlacesAreDeclared(m.workflows[i], StepIds(m.workflows[i].steps), path, k);
  }

  lemma {:induction false} PlacesAreDeclared(w: Workflow, ids: set<string>, path: seq<Cell>, k: nat)
    requires Walks(w, path) && k < |path|
    requires Names(ids, w.entryStep) && forall r :: r in w.routes ==> RouteFits(r, ids)
    ensures if k < |path| - 1 then Names(ids, path[k]) else Names(ids, path[k]) || path[k] == Some("END")
  {
    if k < |path| - 1 {
      var r :| r in w.routes && r.from == path[k] && r.to == path[k + 1];
    } else if k > 0 {
      var r :| r in w.routes && r.from == path[k - 1] && r.to == path[k];
    }
  }

  datatype Lookup<T> = Found(value: T) | WorkflowNotFound | ContractNotFound

  function FindWorkflow(ws: seq<Workflow>, id: string): (r: Option<nat>)
    ensures r.Some? ==> r.value < |ws| && ws[r.value].id == id
    ensures r.None? ==> forall i :: 0 <= i < |ws| ==> ws[i].id != id
  {
    if ws == [] then None
    else if ws[|ws| - 1].id == id then Some(|ws| - 1)
    else FindWorkflow(ws[..|ws| - 1], id)
  }

  function ContractIds(steps: seq<Step>): set<string> {
    set s | s in steps && s.contract.Some? :: s.contract.value
  }

  /** The store's query: the contracts a workflow's steps use, of one type if one is asked for. */
  function RequiredContractIds(m: Manifest, workflow: string, contractType: Cell): Lookup<set<string>> {
    match FindWorkflow(m.workflows, workflow)
    case None => WorkflowNotFound
    case Some(i) =>
      var ids := ContractIds(m.workflows[i].steps);
      if contractType.None? then Found(ids)
      else if exists c :: c in ids && c !in m.contracts then ContractNotFound
      else Found(set c | c in ids && m.contracts[c].contractType == contractType)
  }

  /** A step of the workflow uses the contract. */
  ghost predicate Uses(ws: seq<Workflow>, workflow: string, c: string) {
    exists i, s :: 0 <= i < |ws| && ws[i].id == workflow && s in ws[i].steps && s.contract == Some(c)
  }

  ghost predicate HasWorkflow(ws: seq<Workflow>, id: string) {
    exists i :: 0 <= i < |ws| && ws[i].id == id
  }

  predicate DistinctIds(ws: seq<Workflow>) {
    forall i, j :: 0 <= i < j < |ws| ==> ws[i].id != ws[j].id
  }

  lemma {:induction false} UsesExactly(ws: seq<Workflow>, workflow: string, i: nat, c: string)
    requires DistinctIds(ws) && FindWorkflow(ws, workflow) == Some(i)
    ensures c in ContractIds(ws[i].steps) <==> Uses(ws, workflow, c)
  {
    if Uses(ws, workflow, c) {
      var j, s :| 0 <= j < |ws| && ws[j].id == workflow && s in ws[j].steps && s.contract == Some(c);
      assert i == j;
    }
  }

  /** The query finds the contracts that the steps of the workflow use, those of the asked type if one is asked for;
      it fails exactly when there is no such workflow, or when a type is asked for and a used contract is unknown. */
  lemma {:induction false} RequiredExactly(m: Manifest, workflow: string, contractType: Cell)
    requires DistinctIds(m.workflows)
    ensures var r := RequiredContractIds(m, workflow, contractType);
            && (r.WorkflowNotFound? <==> !HasWorkflow(m.workflows, workflow))
            && (r.ContractNotFound? <==>
                  contractType.Some? && exists c :: Uses(m.workflows, workflow, c) && c !in m.contracts)
            && (r.Found? ==> forall c :: c in r.value <==>
                  && Uses(m.workflows, workflow, c)
                  && (contractType.Some? ==> c in m.contracts && m.contracts[c].contractType == contractType))
  {
    match FindWorkflow(m.workflows, workflow)
    case None =>
    case Some(i) =>
      forall c ensures c in ContractIds(m.workflows[i].steps) <==> Uses(m.workflows, workflow, c) {
        UsesExactly(m.workflows, workflow, i, c);
      }
  }

  /** On a validated manifest the query never misses a contract. */
  lemma {:induction false} ContractsAreFound(m: Manifest, workflow: string, contractType: Cell)
    requires WellFormed(m)
    ensures !RequiredContractIds(m, workflow, contractType).ContractNotFound?
  {
    match FindWorkflow(m.workflows, workflow)
    case None =>
    case Some(i) =>
      var w := m.workflows[i];
      assert Resolves(w, m.contracts.Keys, KeysOf(m.common));
      forall c | c in ContractIds(w.steps) ensures c in m.contracts {
        var s :| s in w.steps && s.contract == Some(c);
        var n :| 0 <= n < |w.steps| && w.steps[n] == s;
        assert StepFits(w.steps[n], m.contracts.Keys, KeysOf(m.common) + KeysOf(w.schema));
      }
  }
}
