/** The `instances` table as a map from id to row. Every mutation is one
    guarded conditional write: it either matches the row (status plus identity
    checks) and applies the whole change, or matches nothing, leaves the table
    as it was, and reports that with an absent row / `false`. */
module InstanceStore {
  import opened Common
  import opened Types

  type Store = map<string, Instance>

  /** Column default of `model` and the fallback used by `createInstance`. */
  const DefaultModel: string := "deepseek/deepseek-chat-v3-0324"
  /** Column default of `max_turns` and the fallback used by `createInstance`. */
  const DefaultMaxTurns: int := 10

  /** A guarded write's effect: the table afterwards and the re-read row,
      absent when the guard matched no row. */
  datatype Update = Update(store: Store, row: Option<Instance>)

  // ---------------------------------------------------------------------
  // Invariants

  /** The states in which the seller's confidential fields may be present. */
  predicate SellerDataAllowed(i: Instance) {
    || i.status == Committed
    || i.status == Running
    || (i.status == Completed && i.outcome == Some(Accept))
  }

  /** Confidentiality: the seller's info and proof are present exactly in the
      states that allow them; an outcome exists exactly when completed; a
      seller exists exactly once past creation. */
  predicate Consistent(i: Instance) {
    && (i.seller_info.Some? <==> SellerDataAllowed(i))
    && (i.seller_proof.Some? <==> SellerDataAllowed(i))
    && (i.outcome.Some? <==> i.status == Completed)
    && (i.seller_address.Some? <==> i.status != Created)
  }

  /** Every row sits under its own id (the primary key). */
  predicate Keyed(s: Store) {
    forall id :: id in s ==> s[id].id == id
  }

  /** Every reachable table: keyed by id, every row consistent. */
  predicate Valid(s: Store) {
    Keyed(s) && forall id :: id in s ==> Consistent(s[id])
  }

  predicate IsTerminal(st: InstanceStatus) {
    st == Completed || st == Failed
  }

  // ---------------------------------------------------------------------
  // Reads

  /** `getInstance`: the row under `id`, if any. */
  function Get(s: Store, id: string): (r: Option<Instance>)
    ensures r.Some? <==> id in s
    ensures r.Some? ==> r.value == s[id]
  {
    if id in s then Some(s[id]) else None
  }

  // ---------------------------------------------------------------------
  // Create

  /** `input.max_turns || 10`: an absent or zero turn budget becomes the default. */
  function MaxTurnsOrDefault(t: Option<int>): (r: int)
    ensures t.Some? && t.value != 0 ==> r == t.value
    ensures t.None? || t.value == 0 ==> r == DefaultMaxTurns
  {
    if t.Some? && t.value != 0 then t.value else DefaultMaxTurns
  }

  /** The row `createInstance` inserts. */
  function NewInstance(id: string, input: CreateInstanceInput, buyer: string, now: string): Instance {
    Instance(
      id, Created,
      buyer, input.buyer_requirement, OrNull(input.buyer_prompt), input.max_payment,
      None, None, None, None,
      OrDefault(input.model, DefaultModel), MaxTurnsOrDefault(input.max_turns),
      None, None, None,
      now, None, None, None)
  }

  /** `createInstance`: inserts a fresh `created` row under `id`. The id comes
      from a UUID generator; should it already be taken, the insert violates
      the primary key and nothing is written. */
  function Create(s: Store, id: string, input: CreateInstanceInput, buyer: string, now: string): (r: Update)
    ensures r.row.None? <==> id in s
    ensures r.row.None? ==> r.store == s
    ensures r.row.Some? ==> r.store.Keys == s.Keys + {id} && r.store[id] == r.row.value
    ensures r.row.Some? ==> forall k :: k in s ==> r.store[k] == s[k]
    ensures r.row.Some? ==> var i := r.row.value;
      && i.id == id && i.status == Created && i.created_at == now
      && i.buyer_address == buyer && i.buyer_requirement == input.buyer_requirement
      && i.max_payment == input.max_payment
      && i.seller_address.None? && i.seller_info.None? && i.seller_proof.None? && i.seller_prompt.None?
      && i.outcome.None? && i.final_price.None? && i.outcome_reasoning.None?
      && i.committed_at.None? && i.started_at.None? && i.completed_at.None?
      && (Truthy(input.model) ==> i.model == input.model.value)
      && (!Truthy(input.model) ==> i.model == DefaultModel)
      && (input.max_turns.Some? && input.max_turns.value != 0 ==> i.max_turns == input.max_turns.value)
      && (input.max_turns.None? || input.max_turns.value == 0 ==> i.max_turns == DefaultMaxTurns)
    ensures Valid(s) ==> Valid(r.store)
  {
    if id in s then Update(s, None)
    else
      var i := NewInstance(id, input, buyer, now);
      Update(s[id := i], Some(i))
  }

  // ---------------------------------------------------------------------
  // Guarded transitions

  /** `WHERE id = ? AND status = 'created' AND buyer_address != ?` */
  predicate CanCommit(s: Store, id: string, seller: string) {
    id in s && s[id].status == Created && s[id].buyer_address != seller
  }

  /** `commitInstance`: a seller other than the buyer attaches their
      confidential info and proof to a `created` instance. */
  function Commit(s: Store, id: string, input: CommitInstanceInput, seller: string, now: string): (r: Update)
    ensures r.row.Some? <==> CanCommit(s, id, seller)
    ensures r.row.None? ==> r.store == s
    ensures r.row.Some? ==> r.store == s[id := r.row.value]
    ensures r.row.Some? ==> var i := r.row.value;
      && i.status == Committed
      && i.seller_address == Some(seller)
      && i.seller_info == Some(input.seller_info)
      && i.seller_proof == Some(input.seller_proof)
      && i.seller_prompt == OrNull(input.seller_prompt)
      && i.committed_at == Some(now)
      // no other column changes
      && i.(status := Created, seller_address := None, seller_info := None, seller_proof := None,
            seller_prompt := s[id].seller_prompt, committed_at := s[id].committed_at)
         == s[id].(seller_address := None, seller_info := None, seller_proof := None)
    ensures Valid(s) ==> Valid(r.store)
  {
    if CanCommit(s, id, seller) then
      var i := s[id].(
        seller_address := Some(seller),
        seller_info := Some(input.seller_info),
        seller_proof := Some(input.seller_proof),
        seller_prompt := OrNull(input.seller_prompt),
        status := Committed,
        committed_at := Some(now));
      Update(s[id := i], Some(i))
    else Update(s, None)
  }

  /** `WHERE id = ? AND status = 'committed' AND buyer_address = ?` */
  predicate CanStart(s: Store, id: string, buyer: string) {
    id in s && s[id].status == Committed && s[id].buyer_address == buyer
  }

  /** `startInstance`: the buyer moves a `committed` instance to `running`;
      only the status and the start time change. */
  function Start(s: Store, id: string, buyer: string, now: string): (r: Update)
    ensures r.row.Some? <==> CanStart(s, id, buyer)
    ensures r.row.None? ==> r.store == s
    ensures r.row.Some? ==> r.store == s[id := r.row.value]
    ensures r.row.Some? ==> r.row.value.status == Running && r.row.value.started_at == Some(now)
    ensures r.row.Some? ==>
      r.row.value.(status := Committed, started_at := s[id].started_at) == s[id]
    ensures Valid(s) ==> Valid(r.store)
  {
    if CanStart(s, id, buyer) then
      var i := s[id].(status := Running, started_at := Some(now));
      Update(s[id := i], Some(i))
    else Update(s, None)
  }

  /** `WHERE id = ? AND status = 'running'` */
  predicate IsRunning(s: Store, id: string) {
    id in s && s[id].status == Running
  }

  /** `completeInstance`: records the outcome of a `running` instance. The
      follow-up statement that clears the seller's info and proof on REJECT is
      part of the same step. */
  function Complete(s: Store, id: string, decision: Decision, finalPrice: Option<real>, reasoning: string, now: string): (r: Update)
    ensures r.row.Some? <==> IsRunning(s, id)
    ensures r.row.None? ==> r.store == s
    ensures r.row.Some? ==> r.store == s[id := r.row.value]
    ensures r.row.Some? ==> var i := r.row.value;
      && i.status == Completed
      && i.outcome == Some(decision)
      && i.final_price == finalPrice
      && i.outcome_reasoning == Some(reasoning)
      && i.completed_at == Some(now)
      && (decision == Reject ==> i.seller_info.None? && i.seller_proof.None?)
      && (decision == Accept ==> i.seller_info == s[id].seller_info && i.seller_proof == s[id].seller_proof)
      // no other column changes
      && i.(status := s[id].status, outcome := s[id].outcome, final_price := s[id].final_price,
            outcome_reasoning := s[id].outcome_reasoning, completed_at := s[id].completed_at,
            seller_info := s[id].seller_info, seller_proof := s[id].seller_proof) == s[id]
    ensures Valid(s) ==> Valid(r.store)
  {
    if IsRunning(s, id) then
      var done := s[id].(
        status := Completed,
        outcome := Some(decision),
        final_price := finalPrice,
        outcome_reasoning := Some(reasoning),
        completed_at := Some(now));
      var i := if decision == Reject then done.(seller_info := None, seller_proof := None) else done;
      Update(s[id := i], Some(i))
    else Update(s, None)
  }

  /** `failInstance`: a `running` instance fails with `reason`; its outcome
      stays empty and the seller's info and proof are cleared in the same step. */
  function Fail(s: Store, id: string, reason: string, now: string): (r: Update)
    ensures r.row.Some? <==> IsRunning(s, id)
    ensures r.row.None? ==> r.store == s
    ensures r.row.Some? ==> r.store == s[id := r.row.value]
    ensures r.row.Some? ==> var i := r.row.value;
      && i.status == Failed
      && i.outcome == s[id].outcome
      && i.outcome_reasoning == Some(reason)
      && i.completed_at == Some(now)
      && i.seller_info.None? && i.seller_proof.None?
      // no other column changes
      && i.(status := s[id].status, outcome_reasoning := s[id].outcome_reasoning, completed_at := s[id].completed_at,
            seller_info := s[id].seller_info, seller_proof := s[id].seller_proof) == s[id]
    ensures Valid(s) ==> r.row.Some? ==> r.row.value.outcome.None?
    ensures Valid(s) ==> Valid(r.store)
  {
    if IsRunning(s, id) then
      var i := s[id].(
        status := Failed,
        outcome_reasoning := Some(reason),
        completed_at := Some(now),
        seller_info := None,
        seller_proof := None);
      Update(s[id := i], Some(i))
    else Update(s, None)
  }

  /** `WHERE id = ? AND buyer_address = ? AND status = 'created'` */
  predicate CanDelete(s: Store, id: string, buyer: string) {
    id in s && s[id].buyer_address == buyer && s[id].status == Created
  }

  /** `deleteInstance`: the buyer cancels an instance nobody has committed to;
      the answer is whether a row was removed. */
  function Delete(s: Store, id: string, buyer: string): (r: (Store, bool))
    ensures r.1 <==> CanDelete(s, id, buyer)
    ensures r.1 <==> |r.0| == |s| - 1
    ensures r.1 ==> r.0 == s - {id}
    ensures !r.1 ==> r.0 == s
    ensures Valid(s) ==> Valid(r.0)
  {
    if CanDelete(s, id, buyer) then
      assert (s - {id}).Keys == s.Keys - {id};
      (s - {id}, true)
    else (s, false)
  }

  // ---------------------------------------------------------------------
  // Whole-lifecycle properties

  /** One call into the store, with all of its arguments. */
  datatype Op =
    | CreateOp(id: string, input: CreateInstanceInput, buyer: string, now: string)
    | CommitOp(id: string, commit: CommitInstanceInput, seller: string, now: string)
    | StartOp(id: string, buyer: string, now: string)
    | CompleteOp(id: string, decision: Decision, finalPrice: Option<real>, reasoning: string, now: string)
    | FailOp(id: string, reason: string, now: string)
    | DeleteOp(id: string, buyer: string)

  function Apply(s: Store, op: Op): Store {
    match op
    case CreateOp(id, input, buyer, now) => Create(s, id, input, buyer, now).store
    case CommitOp(id, input, seller, now) => Commit(s, id, input, seller, now).store
    case StartOp(id, buyer, now) => Start(s, id, buyer, now).store
    case CompleteOp(id, d, p, why, now) => Complete(s, id, d, p, why, now).store
    case FailOp(id, why, now) => Fail(s, id, why, now).store
    case DeleteOp(id, buyer) => Delete(s, id, buyer).0
  }

  /** The table after a sequence of calls, in order. */
  function ApplyAll(s: Store, ops: seq<Op>): Store
    decreases |ops|
  {
    if |ops| == 0 then s else ApplyAll(Apply(s, ops[0]), ops[1..])
  }

  /** Starting from an empty table, every reachable table is valid: the
      confidential fields are present only while committed/running or after
      an ACCEPT, and gone after a REJECT or a failure. */
  lemma {:induction false} ReachableTablesAreValid(s: Store, ops: seq<Op>)
    requires Valid(s)
    ensures Valid(ApplyAll(s, ops))
    decreases |ops|
  {
    if |ops| > 0 {
      ReachableTablesAreValid(Apply(s, ops[0]), ops[1..]);
    }
  }

  /** A single call never alters a terminal row. */
  lemma TerminalRowUnchangedByOne(s: Store, op: Op, id: string)
    requires id in s && IsTerminal(s[id].status)
    ensures id in Apply(s, op) && Apply(s, op)[id] == s[id]
  {
  }

  /** Once an instance is completed or failed, no sequence of calls changes
      any of its columns or removes it. */
  lemma {:induction false} TerminalRowIsFrozen(s: Store, ops: seq<Op>, id: string)
    requires id in s && IsTerminal(s[id].status)
    ensures id in ApplyAll(s, ops) && ApplyAll(s, ops)[id] == s[id]
    decreases |ops|
  {
    if |ops| > 0 {
      TerminalRowUnchangedByOne(s, ops[0], id);
      TerminalRowIsFrozen(Apply(s, ops[0]), ops[1..], id);
    }
  }

  /** No guarded call succeeds on a completed or failed instance. */
  lemma NoTransitionFromTerminal(s: Store, id: string, caller: string, input: CommitInstanceInput,
                                 d: Decision, p: Option<real>, why: string, now: string)
    requires id in s && IsTerminal(s[id].status)
    ensures Commit(s, id, input, caller, now).row.None?
    ensures Start(s, id, caller, now).row.None?
    ensures Complete(s, id, d, p, why, now).row.None?
    ensures Fail(s, id, why, now).row.None?
    ensures !Delete(s, id, caller).1
  {
  }

  /** The buyer can never commit to their own instance, whatever its status. */
  lemma NoSelfDealing(s: Store, id: string, input: CommitInstanceInput, now: string)
    requires id in s
    ensures Commit(s, id, input, s[id].buyer_address, now).row.None?
  {
  }

  /** Two sellers racing to commit: whoever writes first wins, the second
      write matches no row and leaves the first seller's data in place. */
  lemma SingleCommitWinner(s: Store, id: string, a: string, b: string,
                           ia: CommitInstanceInput, ib: CommitInstanceInput, ta: string, tb: string)
    requires CanCommit(s, id, a)
    ensures var first := Commit(s, id, ia, a, ta);
      var second := Commit(first.store, id, ib, b, tb);
      second.row.None? && second.store[id].seller_address == Some(a)
      && second.store[id].seller_info == Some(ia.seller_info)
  {
  }

  /** Two racing starts: only the first succeeds. */
  lemma SingleStartWinner(s: Store, id: string, buyer: string, t1: string, t2: string)
    requires CanStart(s, id, buyer)
    ensures Start(s, id, buyer, t1).row.Some?
    ensures Start(Start(s, id, buyer, t1).store, id, buyer, t2).row.None?
  {
  }

  // ---------------------------------------------------------------------
  // Listing

  /** Which rows a listing query selects. */
  datatype Filter = AllRows | WithStatus(status: InstanceStatus) | ByBuyer(buyer: string) | BySeller(seller: string)

  predicate Selects(f: Filter, i: Instance) {
    match f
    case AllRows => true
    case WithStatus(st) => i.status == st
    case ByBuyer(a) => i.buyer_address == a
    case BySeller(a) => i.seller_address == Some(a)
  }

  /** `ORDER BY created_at DESC`: each row is at least as recent as the next. */
  predicate NewestFirst(rows: seq<Instance>) {
    forall i :: 0 <= i < |rows| - 1 ==> !StrLess(rows[i].created_at, rows[i + 1].created_at)
  }

  /** Where `x` goes in a newest-first list: before the first row it is at
      least as recent as. */
  function InsertionPoint(x: Instance, rows: seq<Instance>): (j: nat)
    ensures j <= |rows|
    ensures forall i :: 0 <= i < j ==> !StrLess(rows[i].created_at, x.created_at)
    ensures j < |rows| ==> !StrLess(x.created_at, rows[j].created_at)
  {
    if |rows| == 0 || !StrLess(x.created_at, rows[0].created_at) then 0
    else
      StrLessAsymmetric(x.created_at, rows[0].created_at);
      1 + InsertionPoint(x, rows[1..])
  }

  /** Inserting at the insertion point keeps a list newest first. */
  lemma InsertKeepsOrder(x: Instance, rows: seq<Instance>)
    requires NewestFirst(rows)
    ensures var j := InsertionPoint(x, rows); NewestFirst(rows[..j] + [x] + rows[j..])
  {
    var j := InsertionPoint(x, rows);
    var r := rows[..j] + [x] + rows[j..];
    forall i | 0 <= i < |r| - 1
      ensures !StrLess(r[i].created_at, r[i + 1].created_at)
    {
      if i + 1 < j {
        assert r[i] == rows[i] && r[i + 1] == rows[i + 1];
      } else if i + 1 == j {
        assert r[i] == rows[j - 1] && r[i + 1] == x;
      } else if i == j {
        assert r[i] == x && r[i + 1] == rows[j];
      } else {
        assert r[i] == rows[i - 1] && r[i + 1] == rows[i];
      }
    }
  }

  /** No two rows share an id. */
  predicate DistinctIds(rows: seq<Instance>) {
    forall i, j :: 0 <= i < j < |rows| ==> rows[i].id != rows[j].id
  }

  /** Splicing a row with a new id into a list: the result holds exactly the
      old rows plus the new one, still with distinct ids. */
  lemma SpliceFacts(x: Instance, rows: seq<Instance>, j: nat)
    requires j <= |rows|
    requires DistinctIds(rows)
    requires forall i :: 0 <= i < |rows| ==> rows[i].id != x.id
    ensures var r := rows[..j] + [x] + rows[j..];
      && (forall i :: 0 <= i < |r| ==> r[i] == x || r[i] in rows)
      && (forall y :: y in rows ==> y in r)
      && x in r
      && DistinctIds(r)
  {
    var r := rows[..j] + [x] + rows[j..];
    assert r[j] == x;
    forall y | y in rows
      ensures y in r
    {
      var k :| 0 <= k < |rows| && rows[k] == y;
      if k < j { assert r[k] == y; } else { assert r[k + 1] == y; }
    }
    forall i, i' | 0 <= i < i' < |r|
      ensures r[i].id != r[i'].id
    {
      if i' < j {
        assert r[i] == rows[i] && r[i'] == rows[i'];
      } else if i' == j {
        assert r[i] == rows[i];
      } else if i == j {
        assert r[i'] == rows[i' - 1];
      } else if i < j {
        assert r[i] == rows[i] && r[i'] == rows[i' - 1];
      } else {
        assert r[i] == rows[i - 1] && r[i'] == rows[i' - 1];
      }
    }
  }

  /** The rows a filter selects, newest first, each exactly once. */
  method Select(s: Store, f: Filter) returns (rows: seq<Instance>)
    requires Keyed(s)
    ensures NewestFirst(rows)
    ensures forall i :: 0 <= i < |rows| ==> rows[i].id in s && s[rows[i].id] == rows[i] && Selects(f, rows[i])
    ensures forall id :: id in s && Selects(f, s[id]) ==> s[id] in rows
    ensures DistinctIds(rows)
  {
    rows := [];
    var left := s.Keys;
    while left != {}
      invariant left <= s.Keys
      invariant NewestFirst(rows)
      invariant DistinctIds(rows)
      invariant forall i :: 0 <= i < |rows| ==>
        rows[i].id in s && rows[i].id !in left && s[rows[i].id] == rows[i] && Selects(f, rows[i])
      invariant forall id :: id in s && id !in left && Selects(f, s[id]) ==> s[id] in rows
      decreases left
    {
      var k :| k in left;
      if Selects(f, s[k]) {
        var x := s[k];
        var j := InsertionPoint(x, rows);
        InsertKeepsOrder(x, rows);
        SpliceFacts(x, rows, j);
        rows := rows[..j] + [x] + rows[j..];
      }
      left := left - {k};
    }
  }

  /** `listInstances`: all rows, or those with the given status, newest first. */
  method List(s: Store, status: Option<InstanceStatus>) returns (rows: seq<Instance>)
    requires Keyed(s)
    ensures NewestFirst(rows)
    ensures forall i :: 0 <= i < |rows| ==> rows[i].id in s && s[rows[i].id] == rows[i]
    ensures forall i :: 0 <= i < |rows| ==> status.None? || rows[i].status == status.value
    ensures forall id :: id in s && (status.None? || s[id].status == status.value) ==> s[id] in rows
    ensures DistinctIds(rows)
  {
    rows := Select(s, if status.None? then AllRows else WithStatus(status.value));
  }

  /** `listInstancesByAddress`: the rows where `address` is the buyer, and
      those where it is the seller, each newest first. */
  method ListByAddress(s: Store, address: string) returns (asBuyer: seq<Instance>, asSeller: seq<Instance>)
    requires Keyed(s)
    ensures NewestFirst(asBuyer) && NewestFirst(asSeller)
    ensures forall i :: 0 <= i < |asBuyer| ==> asBuyer[i].id in s && s[asBuyer[i].id] == asBuyer[i] && asBuyer[i].buyer_address == address
    ensures forall i :: 0 <= i < |asSeller| ==> asSeller[i].id in s && s[asSeller[i].id] == asSeller[i] && asSeller[i].seller_address == Some(address)
    ensures forall id :: id in s && s[id].buyer_address == address ==> s[id] in asBuyer
    ensures forall id :: id in s && s[id].seller_address == Some(address) ==> s[id] in asSeller
    ensures DistinctIds(asBuyer) && DistinctIds(asSeller)
  {
    asBuyer := Select(s, ByBuyer(address));
    asSeller := Select(s, BySeller(address));
  }
}
