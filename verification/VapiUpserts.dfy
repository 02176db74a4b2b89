/** The voice-assistant setup script (scripts/setup_vapi.py): listing an account's tools, planning
    one upsert per tool schema and one for the transfer tool, and applying the plan. */
module VapiUpserts {
  import opened Wrappers

  /** What a payload says about a tool. A function tool without a name has the empty one. */
  datatype Content =
    | FunctionTool(name: string, description: string, parameters: string, server: string)
    | TransferCall(number: string, message: string)
    | OtherTool(text: string)

  datatype Tool = Tool(id: nat, content: Content)

  datatype Schema = Schema(name: string, description: string, parameters: string)

  /** An update of an existing tool, or a creation. */
  datatype Entry = Entry(existing: Option<nat>, payload: Content)

  datatype TransferPlan = Skipped | Refused | Upsert(entry: Entry)

  datatype Account = Account(tools: seq<Tool>, nextId: nat)

  ghost predicate UniqueIds(tools: seq<Tool>) {
    forall i, j | 0 <= i < j < |tools| :: tools[i].id != tools[j].id
  }

  ghost predicate Valid(a: Account) {
    UniqueIds(a.tools) && forall t | t in a.tools :: t.id < a.nextId
  }

  // ------------------------------------------------------------ the index of an account

  predicate IsNamed(t: Tool) {
    t.content.FunctionTool? && t.content.name != ""
  }

  function ByName(tools: seq<Tool>): map<string, nat> {
    if tools == [] then map[]
    else
      var t, before := tools[|tools| - 1], ByName(tools[..|tools| - 1]);
      if IsNamed(t) then before[t.content.name := t.id] else before
  }

  function TransferIds(tools: seq<Tool>): seq<nat> {
    if tools == [] then []
    else
      var t, before := tools[|tools| - 1], TransferIds(tools[..|tools| - 1]);
      if t.content.TransferCall? then before + [t.id] else before
  }

  method IndexExistingTools(tools: seq<Tool>) returns (byName: map<string, nat>, transferIds: seq<nat>)
    ensures byName == ByName(tools) && transferIds == TransferIds(tools)
  {
    byName, transferIds := map[], [];
    for i := 0 to |tools|
      invariant byName == ByName(tools[..i]) && transferIds == TransferIds(tools[..i])
    {
      var t := tools[i];
      assert tools[..i + 1][..i] == tools[..i];
      if t.content.FunctionTool? {
        if t.content.name != "" { byName := byName[t.content.name := t.id]; }
      } else if t.content.TransferCall? {
        transferIds := transferIds + [t.id];
      }
    }
    assert tools[..|tools|] == tools;
  }

  /** The index names a tool of the account that carries that name: the last one listed. */
  lemma {:induction false} IndexedIsThere(tools: seq<Tool>, name: string) returns (k: nat)
    requires name in ByName(tools)
    ensures k < |tools| && tools[k].id == ByName(tools)[name] && IsNamed(tools[k]) && tools[k].content.name == name
    ensures name != ""
    ensures forall i | k < i < |tools| :: !(IsNamed(tools[i]) && tools[i].content.name == name)
    decreases |tools|
  {
    var init, t := tools[..|tools| - 1], tools[|tools| - 1];
    if IsNamed(t) && t.content.name == name {
      k := |tools| - 1;
    } else {
      k := IndexedIsThere(init, name);
    }
  }

  /** A name is indexed exactly when it is not empty and some function tool carries it. */
  lemma {:induction false} IndexedExactlyWhen(tools: seq<Tool>, name: string)
    ensures name in ByName(tools) <==>
            name != "" && exists t :: t in tools && t.content.FunctionTool? && t.content.name == name
    decreases |tools|
  {
    if tools != [] {
      var init, last := tools[..|tools| - 1], tools[|tools| - 1];
      assert tools == init + [last];
      IndexedExactlyWhen(init, name);
    }
  }

  // ------------------------------------------------------------ planning

  function FunctionPayload(schema: Schema, server: string): Content {
    FunctionTool(schema.name, schema.description, schema.parameters, server)
  }

  function Lookup(byName: map<string, nat>, name: string): Option<nat> {
    if name in byName then Some(byName[name]) else None
  }

  function FunctionPlan(schemas: seq<Schema>, server: string, byName: map<string, nat>): seq<Entry> {
    seq(|schemas|, i requires 0 <= i < |schemas| =>
        Entry(Lookup(byName, schemas[i].name), FunctionPayload(schemas[i], server)))
  }

  method PlanFunctionToolUpserts(schemas: seq<Schema>, server: string, byName: map<string, nat>)
    returns (plan: seq<Entry>)
    ensures plan == FunctionPlan(schemas, server, byName)
  {
    plan := [];
    for i := 0 to |schemas|
      invariant plan == FunctionPlan(schemas[..i], server, byName)
    {
      var schema := schemas[i];
      var existing := if schema.name in byName then Some(byName[schema.name]) else None;
      plan := plan + [Entry(existing, FunctionPayload(schema, server))];
    }
    assert schemas[..|schemas|] == schemas;
  }

  function PlanTransferCallUpsert(destination: Option<string>, message: string, transferIds: seq<nat>): TransferPlan {
    if destination.None? || destination.value == "" then Skipped
    else if |transferIds| > 1 then Refused
    else Upsert(Entry(if transferIds == [] then None else Some(transferIds[0]),
                      TransferCall(destination.value, message)))
  }

  // ------------------------------------------------------------ applying

  function Rewrite(tools: seq<Tool>, id: nat, content: Content): seq<Tool> {
    seq(|tools|, i requires 0 <= i < |tools| => if tools[i].id == id then Tool(id, content) else tools[i])
  }

  function ApplyEntry(a: Account, e: Entry): (Account, nat) {
    match e.existing
    case Some(id) => (a.(tools := Rewrite(a.tools, id, e.payload)), id)
    case None => (Account(a.tools + [Tool(a.nextId, e.payload)], a.nextId + 1), a.nextId)
  }

  function ApplyFunctions(a: Account, plan: seq<Entry>): (Account, seq<nat>) {
    if plan == [] then (a, [])
    else
      var before := ApplyFunctions(a, plan[..|plan| - 1]);
      var last := ApplyEntry(before.0, plan[|plan| - 1]);
      (last.0, before.1 + [last.1])
  }

  function ApplyTransfer(a: Account, plan: TransferPlan): (Account, Option<nat>) {
    if plan.Upsert? then
      var last := ApplyEntry(a, plan.entry);
      (last.0, Some(last.1))
    else (a, None)
  }

  datatype Outcome = Outcome(account: Account, toolIds: seq<nat>, transferId: Option<nat>)

  /** One run of the script; None when it refuses to guess between several transfer tools. */
  function Setup(a: Account, schemas: seq<Schema>, server: string, destination: Option<string>, message: string)
    : Option<Outcome>
  {
    var transfer := PlanTransferCallUpsert(destination, message, TransferIds(a.tools));
    if transfer.Refused? then None
    else
      var functions := ApplyFunctions(a, FunctionPlan(schemas, server, ByName(a.tools)));
      var last := ApplyTransfer(functions.0, transfer);
      Some(Outcome(last.0, functions.1, last.1))
  }

  /** An account held in memory in place of the remote one. */
  class VapiClient {
    var tools: seq<Tool>
    var nextId: nat

    constructor (a: Account)
      ensures Contents() == a
    {
      tools, nextId := a.tools, a.nextId;
    }

    function Contents(): Account
      reads this
    {
      Account(tools, nextId)
    }

    method CreateTool(payload: Content) returns (id: nat)
      modifies this
      ensures (Contents(), id) == ApplyEntry(old(Contents()), Entry(None, payload))
    {
      id := nextId;
      tools, nextId := tools + [Tool(id, payload)], nextId + 1;
    }

    method UpdateTool(id: nat, payload: Content)
      modifies this
      ensures (Contents(), id) == ApplyEntry(old(Contents()), Entry(Some(id), payload))
    {
      tools := Rewrite(tools, id, payload);
    }

    method ApplyPlan(functionPlan: seq<Entry>, transferPlan: TransferPlan)
      returns (toolIds: seq<nat>, transferId: Option<nat>)
      modifies this
      ensures
        var functions := ApplyFunctions(old(Contents()), functionPlan);
        toolIds == functions.1 && (Contents(), transferId) == ApplyTransfer(functions.0, transferPlan)
    {
      toolIds := [];
      for i := 0 to |functionPlan|
        invariant (Contents(), toolIds) == ApplyFunctions(old(Contents()), functionPlan[..i])
      {
        var entry := functionPlan[i];
        assert functionPlan[..i + 1][..i] == functionPlan[..i];
        if entry.existing.Some? {
          UpdateTool(entry.existing.value, entry.payload);
          toolIds := toolIds + [entry.existing.value];
        } else {
          var id := CreateTool(entry.payload);
          toolIds := toolIds + [id];
        }
      }
      assert functionPlan[..|functionPlan|] == functionPlan;
      transferId := None;
      if transferPlan.Upsert? {
        var entry := transferPlan.entry;
        if entry.existing.Some? {
          UpdateTool(entry.existing.value, entry.payload);
          transferId := entry.existing;
        } else {
          var id := CreateTool(entry.payload);
          transferId := Some(id);
        }
      }
    }

    /** The applying path of the script, up to the assistant. */
    method Run(schemas: seq<Schema>, server: string, destination: Option<string>, message: string)
      returns (outcome: Option<Outcome>)
      modifies this
      ensures outcome == Setup(old(Contents()), schemas, server, destination, message)
      ensures Contents() == (if outcome.Some? then outcome.value.account else old(Contents()))
    {
      var byName, transferIds := IndexExistingTools(tools);
      var functionPlan := PlanFunctionToolUpserts(schemas, server, byName);
      var transferPlan := PlanTransferCallUpsert(destination, message, transferIds);
      if transferPlan.Refused? { return None; }
      var toolIds, transferId := ApplyPlan(functionPlan, transferPlan);
      outcome := Some(Outcome(Contents(), toolIds, transferId));
    }
  }

  // ------------------------------------------------------------ one upsert

  /** Rewriting a tool under the name it has, or under none it had or gets, keeps the index. */
  lemma {:induction false} RewriteKeepsIndex(tools: seq<Tool>, id: nat, content: Content)
    requires forall t | t in tools && t.id == id ::
               || (content.FunctionTool? && t.content.FunctionTool? && content.name == t.content.name)
               || (content.TransferCall? && t.content.TransferCall?)
    ensures ByName(Rewrite(tools, id, content)) == ByName(tools)
    ensures TransferIds(Rewrite(tools, id, content)) == TransferIds(tools)
    decreases |tools|
  {
    if tools != [] {
      var init := tools[..|tools| - 1];
      assert Rewrite(tools, id, content)[..|tools| - 1] == Rewrite(init, id, content);
      assert tools[|tools| - 1] in tools;
      RewriteKeepsIndex(init, id, content);
    }
  }

  lemma RewriteKeepsOthers(a: Account, id: nat, content: Content, k: nat)
    requires Valid(a) && k < |a.tools| && a.tools[k].id == id
    ensures
      var b := ApplyEntry(a, Entry(Some(id), content)).0;
      Valid(b) && Tool(id, content) in b.tools && (forall t | t in a.tools && t.id != id :: t in b.tools)
  {
    var written := Rewrite(a.tools, id, content);
    assert written[k] == Tool(id, content);
    forall t | t in a.tools && t.id != id
      ensures t in written
    {
      var i :| 0 <= i < |a.tools| && a.tools[i] == t;
      assert written[i] == t;
    }
    forall t | t in written
      ensures t.id < a.nextId
    {
      var i :| 0 <= i < |written| && written[i] == t;
      assert a.tools[i] in a.tools;
    }
  }

  lemma CreateKeepsOthers(a: Account, content: Content)
    requires Valid(a)
    ensures
      var (b, id) := ApplyEntry(a, Entry(None, content));
      && Valid(b) && Tool(id, content) in b.tools && (forall t | t in a.tools :: t in b.tools && t.id != id)
      && b.tools[..|b.tools| - 1] == a.tools
  {
    var b := ApplyEntry(a, Entry(None, content)).0;
    assert b.tools[|a.tools|] == Tool(a.nextId, content);
  }

  /** The name is indexed at the returned id, whose tool holds the payload; every other name, tool
      and transfer tool is as before. */
  ghost predicate Upserted(a: Account, b: Account, payload: Content, id: nat) {
    && payload.FunctionTool? && Valid(b) && Tool(id, payload) in b.tools
    && ByName(b.tools) == ByName(a.tools)[payload.name := id] && TransferIds(b.tools) == TransferIds(a.tools)
    && (forall t | t in a.tools && t.id != id :: t in b.tools)
    && (forall t | t in a.tools && t.id == id :: t.content.FunctionTool? && t.content.name == payload.name)
  }

  lemma DistinctTools(tools: seq<Tool>, s: Tool, t: Tool)
    requires UniqueIds(tools) && s in tools && t in tools && s != t
    ensures s.id != t.id
  {
    var i :| 0 <= i < |tools| && tools[i] == s;
    var j :| 0 <= j < |tools| && tools[j] == t;
  }

  lemma CreateIndexes(a: Account, content: Content)
    requires Valid(a)
    ensures
      var (b, id) := ApplyEntry(a, Entry(None, content));
      && ByName(b.tools) ==
         (if IsNamed(Tool(id, content)) then ByName(a.tools)[content.name := id] else ByName(a.tools))
      && TransferIds(b.tools) == (if content.TransferCall? then TransferIds(a.tools) + [id] else TransferIds(a.tools))
  {
    var b := ApplyEntry(a, Entry(None, content)).0;
    assert b.tools[..|b.tools| - 1] == a.tools;
  }

  lemma FunctionUpdate(a: Account, payload: Content)
    requires Valid(a) && payload.FunctionTool? && payload.name in ByName(a.tools)
    ensures
      var id := ByName(a.tools)[payload.name];
      Upserted(a, ApplyEntry(a, Entry(Some(id), payload)).0, payload, id)
  {
    var id := ByName(a.tools)[payload.name];
    var k := IndexedIsThere(a.tools, payload.name);
    RewriteKeepsOthers(a, id, payload, k);
    forall t | t in a.tools && t.id == id
      ensures t == a.tools[k]
    {
      if t != a.tools[k] { DistinctTools(a.tools, t, a.tools[k]); }
    }
    RewriteKeepsIndex(a.tools, id, payload);
    assert ByName(a.tools)[payload.name := id] == ByName(a.tools);
  }

  lemma FunctionCreate(a: Account, payload: Content)
    requires Valid(a) && payload.FunctionTool? && payload.name != ""
    ensures
      var (b, id) := ApplyEntry(a, Entry(None, payload));
      Upserted(a, b, payload, id)
  {
    CreateKeepsOthers(a, payload);
    CreateIndexes(a, payload);
  }

  /** A function entry planned from the account's own index. */
  lemma FunctionUpsert(a: Account, payload: Content)
    requires Valid(a) && payload.FunctionTool? && payload.name != ""
    ensures
      var (b, id) := ApplyEntry(a, Entry(Lookup(ByName(a.tools), payload.name), payload));
      Upserted(a, b, payload, id)
  {
    if payload.name in ByName(a.tools) { FunctionUpdate(a, payload); } else { FunctionCreate(a, payload); }
  }

  // ------------------------------------------------------------ the whole plan

  ghost predicate DistinctNames(schemas: seq<Schema>) {
    && (forall s | s in schemas :: s.name != "")
    && (forall i, j | 0 <= i < j < |schemas| :: schemas[i].name != schemas[j].name)
  }

  ghost predicate ManagedAt(tools: seq<Tool>, schema: Schema, server: string, id: nat) {
    && schema.name in ByName(tools) && ByName(tools)[schema.name] == id
    && Tool(id, FunctionTool(schema.name, schema.description, schema.parameters, server)) in tools
  }

  /** One tool per schema, found under its name and holding its payload. */
  ghost predicate Managed(tools: seq<Tool>, schemas: seq<Schema>, server: string, ids: seq<nat>) {
    |ids| == |schemas| && forall i | 0 <= i < |ids| :: ManagedAt(tools, schemas[i], server, ids[i])
  }

  ghost predicate SameElsewhere(before: seq<Tool>, after: seq<Tool>, ids: seq<nat>) {
    forall t | t in before && t.id !in ids :: t in after
  }

  predicate NamedIn(schemas: seq<Schema>, name: string) {
    exists s | s in schemas :: s.name == name
  }

  /** What applying the function entries establishes. */
  ghost predicate Applied(a: Account, b: Account, schemas: seq<Schema>, server: string, ids: seq<nat>) {
    && Valid(b) && Managed(b.tools, schemas, server, ids)
    && TransferIds(b.tools) == TransferIds(a.tools) && SameElsewhere(a.tools, b.tools, ids)
    && (forall name | !NamedIn(schemas, name) :: Lookup(ByName(b.tools), name) == Lookup(ByName(a.tools), name))
  }

  /** A later upsert of another name leaves a managed tool managed. */
  lemma StaysManaged(a: Account, b: Account, payload: Content, written: nat, schema: Schema, server: string, id: nat)
    requires Upserted(a, b, payload, written) && payload.name != schema.name
    requires ManagedAt(a.tools, schema, server, id)
    ensures ManagedAt(b.tools, schema, server, id)
  {
  }

  lemma AppliedOneMore(a: Account, b: Account, c: Account, schemas: seq<Schema>, schema: Schema, server: string,
                       ids: seq<nat>, id: nat)
    requires Applied(a, b, schemas, server, ids) && Upserted(b, c, FunctionPayload(schema, server), id)
    requires !NamedIn(schemas, schema.name)
    ensures Applied(a, c, schemas + [schema], server, ids + [id])
  {
    var all := schemas + [schema];
    forall i | 0 <= i < |all|
      ensures ManagedAt(c.tools, all[i], server, (ids + [id])[i])
    {
      if i < |schemas| {
        assert schemas[i] in schemas;
        StaysManaged(b, c, FunctionPayload(schema, server), id, schemas[i], server, ids[i]);
      }
    }
    forall name | !NamedIn(all, name)
      ensures Lookup(ByName(c.tools), name) == Lookup(ByName(a.tools), name)
    {
      assert schema in all && forall s | s in schemas :: s in all;
      assert !NamedIn(schemas, name);
    }
    forall t | t in a.tools && t.id !in ids + [id]
      ensures t in c.tools
    {
      assert id in ids + [id] && forall i | i in ids :: i in ids + [id];
      assert t in b.tools;
    }
  }

  lemma EntryApplied(a: Account, b: Account, schemas: seq<Schema>, schema: Schema, server: string, ids: seq<nat>)
    requires Applied(a, b, schemas, server, ids) && !NamedIn(schemas, schema.name) && schema.name != ""
    ensures
      var (c, id) := ApplyEntry(b, Entry(Lookup(ByName(a.tools), schema.name), FunctionPayload(schema, server)));
      Applied(a, c, schemas + [schema], server, ids + [id])
  {
    var payload := FunctionPayload(schema, server);
    assert Lookup(ByName(b.tools), schema.name) == Lookup(ByName(a.tools), schema.name);
    FunctionUpsert(b, payload);
    var (c, id) := ApplyEntry(b, Entry(Lookup(ByName(b.tools), schema.name), payload));
    AppliedOneMore(a, b, c, schemas, schema, server, ids, id);
  }

  lemma PlanOneMore(schemas: seq<Schema>, server: string, byName: map<string, nat>)
    requires schemas != []
    ensures
      var n := |schemas| - 1;
      && FunctionPlan(schemas, server, byName)[..n] == FunctionPlan(schemas[..n], server, byName)
      && FunctionPlan(schemas, server, byName)[n] ==
         Entry(Lookup(byName, schemas[n].name), FunctionPayload(schemas[n], server))
  {
  }

  lemma NameIsNew(schemas: seq<Schema>)
    requires DistinctNames(schemas) && schemas != []
    ensures DistinctNames(schemas[..|schemas| - 1]) && schemas[|schemas| - 1].name != ""
    ensures !NamedIn(schemas[..|schemas| - 1], schemas[|schemas| - 1].name)
  {
    assert schemas[|schemas| - 1] in schemas;
  }

  lemma {:induction false} FunctionsApplied(a: Account, schemas: seq<Schema>, server: string)
    requires Valid(a) && DistinctNames(schemas)
    ensures
      var (b, ids) := ApplyFunctions(a, FunctionPlan(schemas, server, ByName(a.tools)));
      Applied(a, b, schemas, server, ids)
    decreases |schemas|
  {
    if schemas != [] {
      var n := |schemas| - 1;
      var plan := FunctionPlan(schemas, server, ByName(a.tools));
      PlanOneMore(schemas, server, ByName(a.tools));
      FunctionsApplied(a, schemas[..n], server);
      var (b, ids) := ApplyFunctions(a, plan[..n]);
      NameIsNew(schemas);
      EntryApplied(a, b, schemas[..n], schemas[n], server, ids);
      assert schemas == schemas[..n] + [schemas[n]];
    }
  }

  /** The one transfer tool holds the payload; every name and every other tool is as before. */
  ghost predicate Transferred(a: Account, b: Account, payload: Content, id: nat) {
    && payload.TransferCall? && Valid(b) && Tool(id, payload) in b.tools
    && ByName(b.tools) == ByName(a.tools) && TransferIds(b.tools) == [id]
    && (forall t | t in a.tools && t.id != id :: t in b.tools)
    && (forall t | t in a.tools && t.id == id :: t.content.TransferCall?)
  }

  lemma TransferUpdate(a: Account, payload: Content, id: nat)
    requires Valid(a) && payload.TransferCall? && TransferIds(a.tools) == [id]
    ensures Transferred(a, ApplyEntry(a, Entry(Some(id), payload)).0, payload, id)
  {
    var k := TransferIsThere(a.tools, id);
    RewriteKeepsOthers(a, id, payload, k);
    forall t | t in a.tools && t.id == id
      ensures t == a.tools[k]
    {
      if t != a.tools[k] { DistinctTools(a.tools, t, a.tools[k]); }
    }
    RewriteKeepsIndex(a.tools, id, payload);
  }

  lemma TransferCreate(a: Account, payload: Content)
    requires Valid(a) && payload.TransferCall? && TransferIds(a.tools) == []
    ensures
      var (b, id) := ApplyEntry(a, Entry(None, payload));
      Transferred(a, b, payload, id)
  {
    CreateKeepsOthers(a, payload);
    CreateIndexes(a, payload);
  }

  /** The transfer entry planned from the account's own transfer tools. */
  lemma TransferApplied(a: Account, number: string, message: string)
    requires Valid(a) && |TransferIds(a.tools)| <= 1 && number != ""
    ensures
      var (b, id) := ApplyTransfer(a, PlanTransferCallUpsert(Some(number), message, TransferIds(a.tools)));
      id.Some? && Transferred(a, b, TransferCall(number, message), id.value)
  {
    var ids, payload := TransferIds(a.tools), TransferCall(number, message);
    if ids == [] {
      TransferCreate(a, payload);
    } else {
      assert ids == [ids[0]];
      TransferUpdate(a, payload, ids[0]);
    }
  }

  lemma {:induction false} TransferIsThere(tools: seq<Tool>, id: nat) returns (k: nat)
    requires id in TransferIds(tools)
    ensures k < |tools| && tools[k].id == id && tools[k].content.TransferCall?
    decreases |tools|
  {
    var init, t := tools[..|tools| - 1], tools[|tools| - 1];
    if t.content.TransferCall? && t.id == id {
      k := |tools| - 1;
    } else {
      k := TransferIsThere(init, id);
    }
  }

  predicate Supplied(destination: Option<string>) {
    destination.Some? && destination.value != ""
  }

  /** What a run leaves behind. */
  ghost predicate Converged(o: Outcome, schemas: seq<Schema>, server: string, destination: Option<string>,
                            message: string) {
    && Valid(o.account) && Managed(o.account.tools, schemas, server, o.toolIds)
    && (Supplied(destination) ==>
          o.transferId.Some? && TransferIds(o.account.tools) == [o.transferId.value] &&
          Tool(o.transferId.value, TransferCall(destination.value, message)) in o.account.tools)
    && (!Supplied(destination) ==> o.transferId.None?)
  }

  /** A run is refused exactly when a destination is supplied and several transfer tools exist. */
  lemma FirstRunConverges(a: Account, schemas: seq<Schema>, server: string, destination: Option<string>,
                          message: string)
    requires Valid(a) && DistinctNames(schemas)
    ensures
      var run := Setup(a, schemas, server, destination, message);
      && (run.None? <==> Supplied(destination) && |TransferIds(a.tools)| > 1)
      && (run.Some? ==> Converged(run.value, schemas, server, destination, message))
  {
    FunctionsApplied(a, schemas, server);
    var (b, ids) := ApplyFunctions(a, FunctionPlan(schemas, server, ByName(a.tools)));
    if Supplied(destination) && |TransferIds(a.tools)| <= 1 {
      TransferApplied(b, destination.value, message);
    }
  }

  lemma RewriteSame(tools: seq<Tool>, t: Tool)
    requires UniqueIds(tools) && t in tools
    ensures Rewrite(tools, t.id, t.content) == tools
  {
    forall i | 0 <= i < |tools|
      ensures Rewrite(tools, t.id, t.content)[i] == tools[i]
    {
      if tools[i] != t { DistinctTools(tools, tools[i], t); }
    }
  }

  lemma {:induction false} NothingToDo(a: Account, byName: map<string, nat>, schemas: seq<Schema>, server: string,
                                       ids: seq<nat>)
    requires Valid(a) && byName == ByName(a.tools) && Managed(a.tools, schemas, server, ids)
    ensures ApplyFunctions(a, FunctionPlan(schemas, server, byName)) == (a, ids)
    decreases |schemas|
  {
    if schemas != [] {
      var n := |schemas| - 1;
      assert FunctionPlan(schemas, server, byName)[..n] == FunctionPlan(schemas[..n], server, byName);
      NothingToDo(a, byName, schemas[..n], server, ids[..n]);
      assert ManagedAt(a.tools, schemas[n], server, ids[n]);
      RewriteSame(a.tools, Tool(ids[n], FunctionPayload(schemas[n], server)));
      assert ids == ids[..n] + [ids[n]];
    }
  }

  /** Running the script again changes nothing: no tool is created, every tool holds what it held,
      and the same ids come back in the same order. */
  lemma SecondRunChangesNothing(a: Account, schemas: seq<Schema>, server: string, destination: Option<string>,
                                message: string)
    requires Valid(a) && DistinctNames(schemas)
    ensures
      var run := Setup(a, schemas, server, destination, message);
      run.Some? ==> Setup(run.value.account, schemas, server, destination, message) == run
  {
    FirstRunConverges(a, schemas, server, destination, message);
    var run := Setup(a, schemas, server, destination, message);
    if run.Some? {
      var o := run.value;
      NothingToDo(o.account, ByName(o.account.tools), schemas, server, o.toolIds);
      if Supplied(destination) {
        RewriteSame(o.account.tools, Tool(o.transferId.value, TransferCall(destination.value, message)));
      }
    }
  }

  lemma ManagedIdsAreDistinct(tools: seq<Tool>, schemas: seq<Schema>, server: string, ids: seq<nat>)
    requires UniqueIds(tools) && DistinctNames(schemas) && Managed(tools, schemas, server, ids)
    ensures forall i, j | 0 <= i < j < |ids| :: ids[i] != ids[j]
  {
    forall i, j | 0 <= i < j < |ids|
      ensures ids[i] != ids[j]
    {
      assert ManagedAt(tools, schemas[i], server, ids[i]) && ManagedAt(tools, schemas[j], server, ids[j]);
      DistinctTools(tools, Tool(ids[i], FunctionPayload(schemas[i], server)),
                    Tool(ids[j], FunctionPayload(schemas[j], server)));
    }
  }

  /** Two schemas never share a tool, and a tool whose id is not returned is left as it was. */
  lemma OthersAreLeftAlone(a: Account, schemas: seq<Schema>, server: string, destination: Option<string>,
                           message: string)
    requires Valid(a) && DistinctNames(schemas) && Setup(a, schemas, server, destination, message).Some?
    ensures
      var o := Setup(a, schemas, server, destination, message).value;
      && (forall i, j | 0 <= i < j < |o.toolIds| :: o.toolIds[i] != o.toolIds[j])
      && SameElsewhere(a.tools, o.account.tools, o.toolIds + (if o.transferId.Some? then [o.transferId.value] else []))
  {
    FirstRunConverges(a, schemas, server, destination, message);
    var o := Setup(a, schemas, server, destination, message).value;
    ManagedIdsAreDistinct(o.account.tools, schemas, server, o.toolIds);
    FunctionsApplied(a, schemas, server);
    var b := ApplyFunctions(a, FunctionPlan(schemas, server, ByName(a.tools))).0;
    if Supplied(destination) {
      TransferApplied(b, destination.value, message);
      assert o.transferId.value in o.toolIds + [o.transferId.value];
      assert forall id | id in o.toolIds :: id in o.toolIds + [o.transferId.value];
    }
  }
}
