/** The event-sourced asset store as values: what one record of the log does to the store, when a
    change is acceptable, and what a whole log replays to. */
module AssetLog {
  import opened Options
  import opened Text

  const OPERATION_LIMIT := 4096
  const MAX_RESULTS := 20
  const MAX_UINT64 := 0xFFFF_FFFF_FFFF_FFFF

  type uint64 = n: int | 0 <= n <= MAX_UINT64

  /** Go's wrapping increment. */
  function Next(n: uint64): uint64 {
    if n == MAX_UINT64 then 0 else n + 1
  }

  const ASSET_SCHEMA := "ownward.information/v1"
  const KINDS := {"information", "experience", "thought", "social", "knowledge", "skill", "work",
                  "method", "lesson", "solution", "path"}
  const QUALIFIES := "qualifies"

  datatype Relation = Relation(kind: string, target: string, selector: Option<Selector>)

  datatype Context = Context(key: string, value: string)

  /** Instants are counted from Go's zero time. */
  datatype Information = Information(
    schema: string, id: string, revision: uint64, created: nat, updated: nat, kind: string,
    content: string, contexts: seq<Context>, relations: seq<Relation>, source: (string, string))
  {
    predicate Valid() {
      && schema == ASSET_SCHEMA
      && !GoBlank(id)
      && revision != 0
      && kind in KINDS
      && !GoBlank(content)
      && created != 0 && created <= updated
      && (forall c | c in contexts :: !GoBlank(c.key) && !GoBlank(c.value))
      && (forall r | r in relations ::
            && (r.selector.Some? ==> r.kind == QUALIFIES && r.selector.value.Locates(content))
            && !GoBlank(r.kind) && !GoBlank(r.target)
            && (r.target == id ==> r.kind == QUALIFIES && r.selector.Some?))
    }

    predicate Qualifies(target: string) {
      exists r | r in relations :: r.kind == QUALIFIES && r.target == target
    }
  }

  datatype OperationIdentity = OperationIdentity(
    id: string, system: string, principal: string, generation: uint64, kind: string, digest: string)
  {
    predicate Complete() {
      id != "" && system != "" && principal != "" && digest != "" && generation != 0
    }

    /** The receipt table's key: plain concatenation, which two identities may share. */
    function Key(): string {
      system + "/" + principal + "/" + id
    }
  }

  datatype AssetVersion = AssetVersion(id: string, revision: uint64)

  datatype Outcome = Outcome(asset: AssetVersion, error: string)

  datatype Receipt = Receipt(operation: OperationIdentity, results: seq<Outcome>)

  datatype Deletion = Deletion(id: string, revision: uint64)

  datatype Event =
    | Create(value: Information)
    | Update(value: Information)
    | Snapshot(value: Information)
    | Mutation(receipt: Receipt, values: seq<Information>, expected: seq<uint64>)
    | OperationReceipt(receipt: Receipt)
    | OperationGeneration(generation: uint64)
    | Forget(deleted: seq<Deletion>)
    | Forgotten(deleted: seq<Deletion>)

  datatype Error = IncompleteIdentity | IdentityReused | Expired | NotIncreasing | AlreadyCommitted | Rejected

  datatype Result<+T> = Ok(value: T) | Err(error: Error)

  datatype State = State(
    items: map<string, Information>, deleted: map<string, uint64>,
    receipts: map<string, Receipt>, generation: uint64)

  const EMPTY := State(map[], map[], map[], 1)

  /** `s.deleted[id]`: zero for an absent key. */
  function Tombstone(deleted: map<string, uint64>, id: string): uint64 {
    if id in deleted then deleted[id] else 0
  }

  /** `lookupOperation`: a stored receipt, leave to commit, or a refusal. */
  function Lookup(st: State, op: OperationIdentity): Result<Option<Receipt>> {
    if !op.Complete() then Err(IncompleteIdentity)
    else if op.Key() in st.receipts then
      if st.receipts[op.Key()].operation != op then Err(IdentityReused)
      else Ok(Some(st.receipts[op.Key()]))
    else if op.generation != st.generation then Err(Expired)
    else Ok(None)
  }

  /** A version may be written over what the store holds: a new asset at revision one, or the next
      revision of the expected one with its creation time. */
  predicate AcceptsWrite(items: map<string, Information>, v: Information, expected: uint64) {
    if expected == 0 then v.id !in items && v.revision == 1
    else v.id in items && items[v.id].revision == expected
         && v.revision == Next(items[v.id].revision) && v.created == items[v.id].created
  }

  function Succeeded(results: seq<Outcome>): (r: seq<AssetVersion>) {
    if results == [] then []
    else (var rest := Succeeded(results[..|results| - 1]);
          if results[|results| - 1].error == "" then rest + [results[|results| - 1].asset] else rest)
  }

  function Versions(values: seq<Information>): (r: seq<AssetVersion>)
    ensures |r| == |values|
  {
    seq(|values|, i requires 0 <= i < |values| => AssetVersion(values[i].id, values[i].revision))
  }

  predicate DistinctIds(values: seq<Information>) {
    forall i, j :: 0 <= i < j < |values| ==> values[i].id != values[j].id
  }

  /** `validateMutation` */
  predicate AcceptsMutation(st: State, receipt: Receipt, values: seq<Information>, expected: seq<uint64>) {
    && |values| == |expected|
    && 0 < |receipt.results| <= MAX_RESULTS
    && (forall i :: 0 <= i < |values| ==>
          && values[i].Valid()
          && Tombstone(st.deleted, values[i].id) == 0
          && AcceptsWrite(st.items, values[i], expected[i]))
    && DistinctIds(values)
    && Succeeded(receipt.results) == Versions(values)
  }

  predicate DistinctDeletions(deleted: seq<Deletion>) {
    forall i, j :: 0 <= i < j < |deleted| ==> deleted[i].id != deleted[j].id
  }

  /** The rule for one deletion: a forgotten asset only again at its recorded revision; otherwise a
      request needs the current revision, and a snapshot needs the asset to be absent. */
  predicate AcceptsDeletion(st: State, d: Deletion, request: bool) {
    && !GoBlank(d.id) && d.revision != 0
    && if Tombstone(st.deleted, d.id) != 0 then Tombstone(st.deleted, d.id) == d.revision
       else if request then d.id in st.items && st.items[d.id].revision == d.revision
       else d.id !in st.items
  }

  /** `validateDeletion` */
  predicate AcceptsDeletions(st: State, deleted: seq<Deletion>, request: bool) {
    && deleted != []
    && (forall i :: 0 <= i < |deleted| ==> AcceptsDeletion(st, deleted[i], request))
    && DistinctDeletions(deleted)
  }

  function PutAll(items: map<string, Information>, values: seq<Information>): map<string, Information> {
    if values == [] then items
    else PutAll(items, values[..|values| - 1])[values[|values| - 1].id := values[|values| - 1]]
  }

  function DeletedIds(deleted: seq<Deletion>): set<string> {
    set d | d in deleted :: d.id
  }

  function Bury(tombs: map<string, uint64>, deleted: seq<Deletion>): map<string, uint64> {
    if deleted == [] then tombs
    else Bury(tombs, deleted[..|deleted| - 1])[deleted[|deleted| - 1].id := deleted[|deleted| - 1].revision]
  }

  /** What replaying one record does: `replay`, `replayOperation` and `replayDeletion`. */
  function Apply(st: State, e: Event): Result<State> {
    match e
    case Create(v) =>
      if v.Valid() && Tombstone(st.deleted, v.id) == 0 && v.id !in st.items && v.revision == 1
      then Ok(st.(items := st.items[v.id := v])) else Err(Rejected)
    case Update(v) =>
      if v.Valid() && Tombstone(st.deleted, v.id) == 0 && v.id in st.items
         && v.revision == Next(st.items[v.id].revision) && v.created == st.items[v.id].created
      then Ok(st.(items := st.items[v.id := v])) else Err(Rejected)
    case Snapshot(v) =>
      if v.Valid() && Tombstone(st.deleted, v.id) == 0 && v.id !in st.items
      then Ok(st.(items := st.items[v.id := v])) else Err(Rejected)
    case Mutation(receipt, values, expected) =>
      (match Lookup(st, receipt.operation)
       case Err(error) => Err(error)
       case Ok(Some(_)) => Err(AlreadyCommitted)
       case Ok(None) =>
         if AcceptsMutation(st, receipt, values, expected)
         then Ok(st.(items := PutAll(st.items, values), receipts := st.receipts[receipt.operation.Key() := receipt]))
         else Err(Rejected))
    case OperationReceipt(receipt) =>
      (match Lookup(st, receipt.operation)
       case Err(error) => Err(error)
       case Ok(Some(_)) => Err(AlreadyCommitted)
       case Ok(None) => Ok(st.(receipts := st.receipts[receipt.operation.Key() := receipt])))
    case OperationGeneration(generation) =>
      if generation <= st.generation then Err(NotIncreasing)
      else Ok(st.(generation := generation, receipts := map[]))
    case Forget(deleted) =>
      if AcceptsDeletions(st, deleted, true)
      then Ok(st.(items := st.items - DeletedIds(deleted), deleted := Bury(st.deleted, deleted))) else Err(Rejected)
    case Forgotten(deleted) =>
      if AcceptsDeletions(st, deleted, false)
      then Ok(st.(items := st.items - DeletedIds(deleted), deleted := Bury(st.deleted, deleted))) else Err(Rejected)
  }

  /** Replaying a log from a given state, oldest record first. */
  function Replay(st: State, log: seq<Event>): Result<State> {
    if log == [] then Ok(st)
    else match Replay(st, log[..|log| - 1])
         case Err(error) => Err(error)
         case Ok(before) => Apply(before, log[|log| - 1])
  }

  lemma {:induction false} ReplayConcat(st: State, a: seq<Event>, b: seq<Event>)
    ensures Replay(st, a + b) == match Replay(st, a) case Err(error) => Err(error) case Ok(mid) => Replay(mid, b)
    decreases |b|
  {
    if b == [] {
      assert a + b == a;
    } else {
      assert (a + b)[..|a + b| - 1] == a + b[..|b| - 1];
      ReplayConcat(st, a, b[..|b| - 1]);
    }
  }

  lemma ReplaySnoc(st: State, log: seq<Event>, e: Event)
    ensures Replay(st, log + [e]) == match Replay(st, log) case Err(error) => Err(error) case Ok(mid) => Apply(mid, e)
  {
    assert (log + [e])[..|log + [e]| - 1] == log;
  }

  lemma ReplayOne(st: State, e: Event)
    ensures Replay(st, [e]) == Apply(st, e)
  {
    ReplaySnoc(st, [], e);
    assert [] + [e] == [e];
  }

  /** What every reachable store keeps. */
  ghost predicate WellFormed(st: State) {
    && st.generation != 0
    && (forall k | k in st.receipts ::
          && st.receipts[k].operation.Key() == k
          && st.receipts[k].operation.Complete()
          && st.receipts[k].operation.generation == st.generation)
    && (forall id | id in st.items :: st.items[id].id == id && st.items[id].Valid())
    && (forall id | id in st.deleted :: st.deleted[id] != 0 && !GoBlank(id))
    && st.items.Keys !! st.deleted.Keys
  }

  lemma {:induction false} PutAllContents(items: map<string, Information>, values: seq<Information>)
    requires DistinctIds(values)
    ensures forall id :: id in PutAll(items, values) <==> id in items || exists i :: 0 <= i < |values| && values[i].id == id
    ensures forall i :: 0 <= i < |values| ==> PutAll(items, values)[values[i].id] == values[i]
    ensures forall id | id in items && (forall i :: 0 <= i < |values| ==> values[i].id != id) ::
              PutAll(items, values)[id] == items[id]
  {
    forall id
      ensures id in PutAll(items, values) <==> id in items || exists i :: 0 <= i < |values| && values[i].id == id
      ensures id in items && (forall i :: 0 <= i < |values| ==> values[i].id != id) ==>
                id in PutAll(items, values) && PutAll(items, values)[id] == items[id]
    {
      PutAllAt(items, values, id);
    }
    forall i | 0 <= i < |values| ensures PutAll(items, values)[values[i].id] == values[i] {
      PutAllAt(items, values, values[i].id);
    }
  }

  /** What is stored under one id afterwards. */
  lemma {:induction false} PutAllAt(items: map<string, Information>, values: seq<Information>, id: string)
    requires DistinctIds(values)
    ensures forall i :: 0 <= i < |values| && values[i].id == id ==>
              id in PutAll(items, values) && PutAll(items, values)[id] == values[i]
    ensures (forall i :: 0 <= i < |values| ==> values[i].id != id) ==>
              (id in PutAll(items, values) <==> id in items) && (id in items ==> PutAll(items, values)[id] == items[id])
  {
    if values != [] {
      var n := |values| - 1;
      assert forall i :: 0 <= i < n ==> values[..n][i] == values[i];
      PutAllAt(items, values[..n], id);
    }
  }

  lemma {:induction false} BuryContents(tombs: map<string, uint64>, deleted: seq<Deletion>)
    requires DistinctDeletions(deleted)
    ensures Bury(tombs, deleted).Keys == tombs.Keys + DeletedIds(deleted)
    ensures forall i :: 0 <= i < |deleted| ==> Bury(tombs, deleted)[deleted[i].id] == deleted[i].revision
    ensures forall id | id in tombs && id !in DeletedIds(deleted) :: Bury(tombs, deleted)[id] == tombs[id]
  {
    if deleted != [] {
      var n := |deleted| - 1;
      var front, last := deleted[..n], deleted[n];
      BuryContents(tombs, front);
      assert deleted == front + [last];
      assert DeletedIds(deleted) == DeletedIds(front) + {last.id};
      var before, after := Bury(tombs, front), Bury(tombs, deleted);
      assert after == before[last.id := last.revision];
      forall i | 0 <= i < |deleted| ensures after[deleted[i].id] == deleted[i].revision {
        if i < n { assert front[i] == deleted[i]; }
      }
    }
  }

  /** Every record that replays keeps the store well formed. */
  lemma ApplyKeepsWellFormed(st: State, e: Event)
    requires WellFormed(st) && Apply(st, e).Ok?
    ensures WellFormed(Apply(st, e).value)
  {
    match e
    case Mutation(receipt, values, expected) => MutationKeepsWellFormed(st, e);
    case Forget(deleted) => BuryKeeps(st, deleted, true);
    case Forgotten(deleted) => BuryKeeps(st, deleted, false);
    case _ =>
  }

  lemma MutationKeepsWellFormed(st: State, e: Event)
    requires WellFormed(st) && e.Mutation? && Apply(st, e).Ok?
    ensures WellFormed(Apply(st, e).value)
  {
    var values := e.values;
    PutAllContents(st.items, values);
    var after := Apply(st, e).value;
    forall id | id in after.items
      ensures after.items[id].id == id && after.items[id].Valid() && id !in after.deleted
    {
      if i :| 0 <= i < |values| && values[i].id == id {
        assert Tombstone(st.deleted, values[i].id) == 0;
      }
    }
  }

  lemma BuryKeeps(st: State, deleted: seq<Deletion>, request: bool)
    requires WellFormed(st) && AcceptsDeletions(st, deleted, request)
    ensures WellFormed(st.(items := st.items - DeletedIds(deleted), deleted := Bury(st.deleted, deleted)))
  {
    BuryContents(st.deleted, deleted);
    var tombs := Bury(st.deleted, deleted);
    forall id | id in tombs ensures tombs[id] != 0 && !GoBlank(id) {
      if id in DeletedIds(deleted) {
        var d :| d in deleted && d.id == id;
        var i :| 0 <= i < |deleted| && deleted[i] == d;
        assert AcceptsDeletion(st, deleted[i], request);
      }
    }
  }

  lemma {:induction false} ReplayKeepsWellFormed(st: State, log: seq<Event>)
    requires WellFormed(st) && Replay(st, log).Ok?
    ensures WellFormed(Replay(st, log).value)
  {
    if log != [] {
      ReplayKeepsWellFormed(st, log[..|log| - 1]);
      ApplyKeepsWellFormed(Replay(st, log[..|log| - 1]).value, log[|log| - 1]);
    }
  }
}
