/** The HTTP handlers for instances, reduced to their decisions: which error
    each guard produces and in which order, what the table looks like
    afterwards, and which fields each caller gets to see. The view
    constructors are the confidentiality boundary: the seller's info reaches
    the buyer only after an ACCEPT, and never reaches anyone else. */
module InstanceRoutes {
  import opened Common
  import opened Types
  import Store = InstanceStore

  /** What anyone may see of an instance. */
  datatype PublicView = PublicView(
    id: string,
    status: InstanceStatus,
    buyer_requirement: string,
    max_payment: real,
    created_at: string)

  /** What a participant sees; `seller_info` is the only conditional field. */
  datatype ParticipantView = ParticipantView(
    id: string,
    status: InstanceStatus,
    buyer_requirement: string,
    max_payment: real,
    created_at: string,
    buyer_address: string,
    seller_address: Option<string>,
    outcome: Option<Decision>,
    final_price: Option<real>,
    outcome_reasoning: Option<string>,
    seller_info: Option<string>)

  datatype View = Public(pub: PublicView) | Participant(part: ParticipantView)

  // ---------------------------------------------------------------------
  // Views

  /** `toPublicView`: the five discovery fields and nothing else. */
  function ToPublicView(i: Instance): (v: PublicView)
    ensures v.id == i.id && v.status == i.status && v.buyer_requirement == i.buyer_requirement
    ensures v.max_payment == i.max_payment && v.created_at == i.created_at
  {
    PublicView(i.id, i.status, i.buyer_requirement, i.max_payment, i.created_at)
  }

  /** The condition under which `toParticipantView` copies `seller_info`:
      an ACCEPT outcome, the buyer asking, and a non-empty stored value. */
  predicate RevealsSellerInfo(i: Instance, viewer: string) {
    i.outcome == Some(Accept) && viewer == i.buyer_address && Truthy(i.seller_info)
  }

  /** `toParticipantView`: every participant field, plus the seller's info
      exactly when it may be revealed to this viewer. */
  function ToParticipantView(i: Instance, viewer: string): (v: ParticipantView)
    ensures v.seller_info.Some? <==> RevealsSellerInfo(i, viewer)
    ensures v.seller_info.Some? ==> v.seller_info == i.seller_info
    ensures v.id == i.id && v.status == i.status && v.buyer_requirement == i.buyer_requirement
    ensures v.max_payment == i.max_payment && v.created_at == i.created_at
    ensures v.buyer_address == i.buyer_address && v.seller_address == i.seller_address
    ensures v.outcome == i.outcome && v.final_price == i.final_price
    ensures v.outcome_reasoning == i.outcome_reasoning
  {
    ParticipantView(
      i.id, i.status, i.buyer_requirement, i.max_payment, i.created_at,
      i.buyer_address, i.seller_address, i.outcome, i.final_price, i.outcome_reasoning,
      if RevealsSellerInfo(i, viewer) then i.seller_info else None)
  }

  /** The public view cannot leak anything about the seller, the addresses or
      the outcome: rows that differ only there have the same public view. */
  lemma PublicViewHidesPrivateColumns(i: Instance, j: Instance)
    requires i.id == j.id && i.status == j.status && i.buyer_requirement == j.buyer_requirement
    requires i.max_payment == j.max_payment && i.created_at == j.created_at
    ensures ToPublicView(i) == ToPublicView(j)
  {
  }

  /** Whoever is not the buyer never receives the seller's info, from
      either view; neither does the buyer before an ACCEPT. */
  lemma OnlyAcceptingBuyerSeesSellerInfo(i: Instance, viewer: string)
    ensures viewer != i.buyer_address ==> ToParticipantView(i, viewer).seller_info.None?
    ensures i.outcome != Some(Accept) ==> ToParticipantView(i, viewer).seller_info.None?
  {
  }

  // ---------------------------------------------------------------------
  // GET /:id

  /** The viewer is authenticated and is the buyer or the committed seller. */
  predicate IsParticipant(viewer: Option<string>, i: Instance) {
    Truthy(viewer) && (viewer.value == i.buyer_address || Some(viewer.value) == i.seller_address)
  }

  /** GET /:id: 404 for an unknown id, the participant view for a
      participant, the public view for everyone else. */
  function GetInstance(s: Store.Store, id: string, viewer: Option<string>): (r: Response<View>)
    ensures r.Error? <==> id !in s
    ensures r.Error? ==> r.code == 404
    ensures r.Ok? ==> (r.body.Participant? <==> IsParticipant(viewer, s[id]))
    ensures r.Ok? && r.body.Public? ==> r.body.pub == ToPublicView(s[id])
    ensures r.Ok? && r.body.Participant? ==> r.body.part == ToParticipantView(s[id], viewer.value)
  {
    match Store.Get(s, id)
    case None => Error(404, "Instance not found")
    case Some(i) =>
      if IsParticipant(viewer, i) then Ok(Participant(ToParticipantView(i, viewer.value)))
      else Ok(Public(ToPublicView(i)))
  }

  /** End to end: on any reachable table, a GET reveals the seller's info
      only to the buyer, only after an ACCEPT, and only the stored value. */
  lemma GetRevealsOnlyToAcceptingBuyer(s: Store.Store, id: string, viewer: Option<string>)
    requires Store.Valid(s)
    ensures var r := GetInstance(s, id, viewer);
      r.Ok? && r.body.Participant? && r.body.part.seller_info.Some? ==>
        && viewer == Some(s[id].buyer_address)
        && s[id].status == Completed && s[id].outcome == Some(Accept)
        && r.body.part.seller_info == s[id].seller_info
  {
  }

  // ---------------------------------------------------------------------
  // GET / and GET /mine

  /** A row passes the status filter of GET / (an empty filter passes everything). */
  predicate PassesFilter(i: Instance, statusQuery: Option<string>) {
    Truthy(statusQuery) ==> StatusName(i.status) == statusQuery.value
  }

  /** A listed view is the public view of some row passing the filter. */
  predicate ListedFrom(s: Store.Store, v: PublicView, statusQuery: Option<string>) {
    exists id :: id in s && v == ToPublicView(s[id]) && PassesFilter(s[id], statusQuery)
  }

  /** GET /?status=: a status filter other than the five names is refused;
      an empty or absent filter lists everything. */
  method ListInstances(s: Store.Store, statusQuery: Option<string>) returns (r: Response<seq<PublicView>>)
    requires Store.Keyed(s)
    ensures r.Error? <==> Truthy(statusQuery) && ParseStatus(statusQuery.value).None?
    ensures r.Error? ==> r.code == 400
    ensures r.Ok? ==> forall k :: 0 <= k < |r.body| ==> ListedFrom(s, r.body[k], statusQuery)
    ensures r.Ok? ==> forall id :: id in s && PassesFilter(s[id], statusQuery) ==> ToPublicView(s[id]) in r.body
    ensures r.Ok? ==> forall k :: 0 <= k < |r.body| - 1 ==> !StrLess(r.body[k].created_at, r.body[k + 1].created_at)
    ensures r.Ok? ==> forall k, k' :: 0 <= k < k' < |r.body| ==> r.body[k].id != r.body[k'].id
  {
    var filter: Option<InstanceStatus> := None;
    if Truthy(statusQuery) {
      var st := ParseStatus(statusQuery.value);
      if st.None? {
        return Error(400, "Invalid status filter");
      }
      filter := st;
    }
    var rows := Store.List(s, filter);
    var views := seq(|rows|, k requires 0 <= k < |rows| => ToPublicView(rows[k]));
    assert forall k :: 0 <= k < |views| ==> views[k].id == rows[k].id && views[k].created_at == rows[k].created_at;
    forall id | id in s && PassesFilter(s[id], statusQuery)
      ensures ToPublicView(s[id]) in views
    {
      if filter.Some? {
        StatusNameInjective(s[id].status, filter.value);
      }
      assert s[id] in rows;
      var k :| 0 <= k < |rows| && rows[k] == s[id];
      assert views[k] == ToPublicView(s[id]);
    }
    forall k | 0 <= k < |views|
      ensures ListedFrom(s, views[k], statusQuery)
    {
      var id := rows[k].id;
      assert id in s && views[k] == ToPublicView(s[id]);
      if Truthy(statusQuery) {
        assert filter == ParseStatus(statusQuery.value) && filter.Some?;
        assert StatusName(s[id].status) == statusQuery.value;
      }
    }
    return Ok(views);
  }

  lemma StatusNameInjective(a: InstanceStatus, b: InstanceStatus)
    ensures StatusName(a) == StatusName(b) ==> a == b
  {
  }

  /** A participant view listed for `address` as buyer: the view, for that
      caller, of one of the rows the caller bought. */
  predicate BoughtBy(s: Store.Store, v: ParticipantView, address: string) {
    exists id :: id in s && s[id].buyer_address == address && v == ToParticipantView(s[id], address)
  }

  /** A participant view listed for `address` as seller: the view, for that
      caller, of one of the rows the caller committed to. */
  predicate SoldBy(s: Store.Store, v: ParticipantView, address: string) {
    exists id :: id in s && s[id].seller_address == Some(address) && v == ToParticipantView(s[id], address)
  }

  /** `ORDER BY created_at DESC` and one entry per row, on participant views. */
  predicate NewestFirstOnce(vs: seq<ParticipantView>) {
    && (forall k :: 0 <= k < |vs| - 1 ==> !StrLess(vs[k].created_at, vs[k + 1].created_at))
    && (forall k, k' :: 0 <= k < k' < |vs| ==> vs[k].id != vs[k'].id)
  }

  /** The participant views of `rows` for one caller, in the same order. */
  function ViewsFor(rows: seq<Instance>, address: string): (vs: seq<ParticipantView>)
    ensures |vs| == |rows|
    ensures forall k :: 0 <= k < |rows| ==> vs[k] == ToParticipantView(rows[k], address)
  {
    seq(|rows|, k requires 0 <= k < |rows| => ToParticipantView(rows[k], address))
  }

  /** The views keep the order and the distinct ids of the rows they show. */
  lemma ViewsKeepOrder(rows: seq<Instance>, address: string)
    requires Store.NewestFirst(rows) && Store.DistinctIds(rows)
    ensures NewestFirstOnce(ViewsFor(rows, address))
  {
    var vs := ViewsFor(rows, address);
    assert forall k :: 0 <= k < |vs| ==> vs[k].id == rows[k].id && vs[k].created_at == rows[k].created_at;
  }

  /** GET /mine: exactly the caller's instances as buyer and as seller, each
      once, newest first, each seen through the participant view for that
      caller. */
  method ListMine(s: Store.Store, address: string) returns (asBuyer: seq<ParticipantView>, asSeller: seq<ParticipantView>)
    requires Store.Keyed(s)
    ensures forall id :: id in s && s[id].buyer_address == address ==> ToParticipantView(s[id], address) in asBuyer
    ensures forall id :: id in s && s[id].seller_address == Some(address) ==> ToParticipantView(s[id], address) in asSeller
    ensures forall k :: 0 <= k < |asBuyer| ==> BoughtBy(s, asBuyer[k], address)
    ensures forall k :: 0 <= k < |asSeller| ==> SoldBy(s, asSeller[k], address)
    ensures NewestFirstOnce(asBuyer) && NewestFirstOnce(asSeller)
    ensures forall k :: 0 <= k < |asSeller| ==> asSeller[k].seller_info.None? || asSeller[k].buyer_address == address
  {
    var b, sl := Store.ListByAddress(s, address);
    asBuyer := ViewsFor(b, address);
    asSeller := ViewsFor(sl, address);
    ViewsKeepOrder(b, address);
    ViewsKeepOrder(sl, address);
    BuyerViewsExact(s, b, address);
    SellerViewsExact(s, sl, address);
  }

  /** GET /mine and GET /:id agree: each view listed for a signed-in caller
      is exactly what GET /:id answers that caller for the same instance. */
  lemma MineAgreesWithGet(s: Store.Store, address: string, v: ParticipantView)
    requires Store.Keyed(s) && address != ""
    requires BoughtBy(s, v, address) || SoldBy(s, v, address)
    ensures GetInstance(s, v.id, Some(address)) == Ok(Participant(v))
  {
    var id :| id in s && (s[id].buyer_address == address || s[id].seller_address == Some(address))
      && v == ToParticipantView(s[id], address);
    assert v.id == ToParticipantView(s[id], address).id == s[id].id;
    assert IsParticipant(Some(address), s[id]);
  }

  /** The views of the caller's buyer rows are exactly the views of the
      rows the caller bought. */
  lemma BuyerViewsExact(s: Store.Store, b: seq<Instance>, address: string)
    requires forall i :: 0 <= i < |b| ==> b[i].id in s && s[b[i].id] == b[i] && b[i].buyer_address == address
    requires forall id :: id in s && s[id].buyer_address == address ==> s[id] in b
    ensures forall id :: id in s && s[id].buyer_address == address ==> ToParticipantView(s[id], address) in ViewsFor(b, address)
    ensures forall k :: 0 <= k < |b| ==> BoughtBy(s, ViewsFor(b, address)[k], address)
  {
    var vs := ViewsFor(b, address);
    forall k | 0 <= k < |vs| ensures BoughtBy(s, vs[k], address) {
      assert vs[k] == ToParticipantView(s[b[k].id], address);
    }
    forall id | id in s && s[id].buyer_address == address
      ensures ToParticipantView(s[id], address) in vs
    {
      var k :| 0 <= k < |b| && b[k] == s[id];
      assert vs[k] == ToParticipantView(s[id], address);
    }
  }

  /** The views of the caller's seller rows are exactly the views of the
      rows the caller committed to, and none of them carries the seller's
      info unless the caller is also the row's buyer. */
  lemma SellerViewsExact(s: Store.Store, sl: seq<Instance>, address: string)
    requires forall i :: 0 <= i < |sl| ==> sl[i].id in s && s[sl[i].id] == sl[i] && sl[i].seller_address == Some(address)
    requires forall id :: id in s && s[id].seller_address == Some(address) ==> s[id] in sl
    ensures forall id :: id in s && s[id].seller_address == Some(address) ==> ToParticipantView(s[id], address) in ViewsFor(sl, address)
    ensures forall k :: 0 <= k < |sl| ==> SoldBy(s, ViewsFor(sl, address)[k], address)
    ensures forall k :: 0 <= k < |sl| ==> ViewsFor(sl, address)[k].seller_info.None? || ViewsFor(sl, address)[k].buyer_address == address
  {
    var vs := ViewsFor(sl, address);
    forall k | 0 <= k < |vs| ensures SoldBy(s, vs[k], address) {
      assert vs[k] == ToParticipantView(s[sl[k].id], address);
    }
    forall id | id in s && s[id].seller_address == Some(address)
      ensures ToParticipantView(s[id], address) in vs
    {
      var k :| 0 <= k < |sl| && sl[k] == s[id];
      assert vs[k] == ToParticipantView(s[id], address);
    }
  }

  // ---------------------------------------------------------------------
  // POST /

  /** The JSON body of POST /; any field may be missing. */
  datatype CreateBody = CreateBody(
    buyer_requirement: Option<string>,
    buyer_prompt: Option<string>,
    max_payment: Option<real>,
    model: Option<string>,
    max_turns: Option<int>)

  datatype CreateReply = CreateReply(id: string, status: InstanceStatus, buyer_address: string)

  /** Whether POST / refuses the body before touching the table. */
  predicate CreateBodyRejected(body: CreateBody) {
    !Truthy(body.buyer_requirement) || !TruthyNumber(body.max_payment) || body.max_payment.value <= 0.0
  }

  /** POST /: refuses a missing requirement or budget and a non-positive
      budget with 400 before any row exists; otherwise inserts a `created`
      row under the generated `id` for the authenticated caller. */
  function CreateInstance(s: Store.Store, id: string, body: CreateBody, address: string, now: string): (r: (Store.Store, Response<CreateReply>))
    ensures CreateBodyRejected(body) ==> r.1.Error? && r.1.code == 400 && r.0 == s
    ensures r.1.Ok? ==> !CreateBodyRejected(body) && id !in s && id in r.0
    ensures r.1.Ok? ==> r.1.body == CreateReply(id, Types.Created, address)
    ensures r.1.Ok? ==>
      && r.0[id].status == Types.Created && r.0[id].buyer_address == address
      && r.0[id].max_payment == body.max_payment.value && r.0[id].max_payment > 0.0
      && r.0[id].buyer_requirement == body.buyer_requirement.value
    ensures !CreateBodyRejected(body) && id !in s ==> r.1.Ok?
    ensures r.1.Error? ==> r.0 == s
    ensures r.1.Ok? ==> r.0 == Store.Create(s, id, CreateInstanceInput(body.buyer_requirement.value, body.buyer_prompt,
      body.max_payment.value, body.model, body.max_turns), address, now).store
    ensures Store.Valid(s) ==> Store.Valid(r.0)
  {
    if !Truthy(body.buyer_requirement) || !TruthyNumber(body.max_payment) then
      (s, Error(400, "Missing required fields: buyer_requirement, max_payment"))
    else if body.max_payment.value <= 0.0 then
      (s, Error(400, "max_payment must be positive"))
    else
      var input := CreateInstanceInput(body.buyer_requirement.value, body.buyer_prompt,
        body.max_payment.value, body.model, body.max_turns);
      var u := Store.Create(s, id, input, address, now);
      match u.row
      case None => (s, Error(500, "Internal Server Error"))
      case Some(i) => (u.store, Ok(CreateReply(i.id, i.status, i.buyer_address)))
  }

  // ---------------------------------------------------------------------
  // POST /:id/commit

  datatype CommitBody = CommitBody(seller_info: Option<string>, seller_proof: Option<string>, seller_prompt: Option<string>)

  datatype StatusReply = StatusReply(id: string, status: InstanceStatus)

  /** POST /:id/commit. Guards in order: missing info or proof → 400,
      unknown id → 404, the buyer committing → 403, the store's guard
      failing (not `created` any more) → 400. */
  function CommitInstance(s: Store.Store, id: string, body: CommitBody, address: string, now: string): (r: (Store.Store, Response<StatusReply>))
    requires Store.Keyed(s)
    ensures r.1.Error? ==> r.0 == s
    ensures !Truthy(body.seller_info) || !Truthy(body.seller_proof) ==> r.1 == Error(400, "Missing required fields: seller_info, seller_proof")
    ensures Truthy(body.seller_info) && Truthy(body.seller_proof) && id !in s ==> r.1 == Error(404, "Instance not found")
    ensures Truthy(body.seller_info) && Truthy(body.seller_proof) && id in s && s[id].buyer_address == address ==>
      r.1 == Error(403, "Cannot commit to your own instance")
    ensures (Truthy(body.seller_info) && Truthy(body.seller_proof) && id in s && s[id].buyer_address != address
      && s[id].status != Types.Created) ==> r.1 == Error(400, "Instance not available for commitment")
    ensures r.1.Ok? <==> Truthy(body.seller_info) && Truthy(body.seller_proof) && Store.CanCommit(s, id, address)
    ensures r.1.Ok? ==>
      && r.1.body == StatusReply(id, Committed) && id in r.0
      && r.0[id].seller_info == body.seller_info && r.0[id].seller_proof == body.seller_proof
      && r.0[id].seller_address == Some(address)
    ensures r.1.Ok? ==> r.0 == Store.Commit(s, id, CommitInstanceInput(body.seller_info.value, body.seller_proof.value,
      body.seller_prompt), address, now).store
    ensures Store.Valid(s) ==> Store.Valid(r.0)
  {
    if !Truthy(body.seller_info) || !Truthy(body.seller_proof) then
      (s, Error(400, "Missing required fields: seller_info, seller_proof"))
    else match Store.Get(s, id)
      case None => (s, Error(404, "Instance not found"))
      case Some(i) =>
        if i.buyer_address == address then (s, Error(403, "Cannot commit to your own instance"))
        else
          var u := Store.Commit(s, id, CommitInstanceInput(body.seller_info.value, body.seller_proof.value, body.seller_prompt), address, now);
          match u.row
          case None => (s, Error(400, "Instance not available for commitment"))
          case Some(updated) => (u.store, Ok(StatusReply(updated.id, updated.status)))
  }

  // ---------------------------------------------------------------------
  // POST /:id/run

  /** POST /:id/run. Guards in order: unknown id → 404, caller not the buyer
      → 403, status not `committed` → 400; only then is the instance started. */
  function RunInstance(s: Store.Store, id: string, address: string, now: string): (r: (Store.Store, Response<StatusReply>))
    requires Store.Keyed(s)
    ensures r.1.Error? ==> r.0 == s
    ensures id !in s ==> r.1 == Error(404, "Instance not found")
    ensures id in s && s[id].buyer_address != address ==> r.1 == Error(403, "Only buyer can start negotiation")
    ensures id in s && s[id].buyer_address == address && s[id].status != Committed ==>
      r.1 == Error(400, "Instance must be in committed status")
    ensures r.1.Ok? <==> Store.CanStart(s, id, address)
    ensures r.1.Ok? ==> r.1.body == StatusReply(id, Running) && r.0 == Store.Start(s, id, address, now).store
    ensures Store.Valid(s) ==> Store.Valid(r.0)
  {
    match Store.Get(s, id)
    case None => (s, Error(404, "Instance not found"))
    case Some(i) =>
      if i.buyer_address != address then (s, Error(403, "Only buyer can start negotiation"))
      else if i.status != Committed then (s, Error(400, "Instance must be in committed status"))
      else
        var u := Store.Start(s, id, address, now);
        match u.row
        case None => (s, Error(500, "Failed to start instance"))
        case Some(updated) => (u.store, Ok(StatusReply(updated.id, updated.status)))
  }

  /** With each request one atomic step, the handler's own checks imply the
      store's guard, so the "Failed to start instance" 500 never happens. */
  lemma RunNeverFailsAfterItsGuards(s: Store.Store, id: string, address: string, now: string)
    requires Store.Keyed(s)
    ensures RunInstance(s, id, address, now).1.Error? ==> RunInstance(s, id, address, now).1.code != 500
  {
  }

  // ---------------------------------------------------------------------
  // GET /:id/stream (guards only)

  /** GET /:id/stream, up to the point where streaming would begin: unknown
      id → 404, non-participant → 403, not running → 400; otherwise the row
      the negotiation would run on. */
  function StreamGuard(s: Store.Store, id: string, address: string): (r: Response<Instance>)
    ensures id !in s ==> r == Error(404, "Instance not found")
    ensures id in s && s[id].buyer_address != address && s[id].seller_address != Some(address) ==>
      r == Error(403, "Not a participant")
    ensures (id in s && (s[id].buyer_address == address || s[id].seller_address == Some(address))
      && s[id].status != Running) ==> r == Error(400, "Instance is not running")
    ensures r.Ok? <==> (id in s && (s[id].buyer_address == address || s[id].seller_address == Some(address))
      && s[id].status == Running)
    ensures r.Ok? ==> r.body == s[id]
  {
    match Store.Get(s, id)
    case None => Error(404, "Instance not found")
    case Some(i) =>
      if i.buyer_address != address && i.seller_address != Some(address) then Error(403, "Not a participant")
      else if i.status != Running then Error(400, "Instance is not running")
      else Ok(i)
  }

  // ---------------------------------------------------------------------
  // DELETE /:id

  /** DELETE /:id: the buyer removes a `created` instance; anything else is
      reported as 404 and leaves the table alone. */
  function DeleteInstance(s: Store.Store, id: string, address: string): (r: (Store.Store, Response<bool>))
    ensures r.1.Ok? <==> Store.CanDelete(s, id, address)
    ensures r.1.Ok? ==> r.1.body && r.0 == s - {id}
    ensures r.1.Error? ==> r.1 == Error(404, "Instance not found or cannot be deleted") && r.0 == s
  {
    var (s', deleted) := Store.Delete(s, id, address);
    if !deleted then (s, Error(404, "Instance not found or cannot be deleted"))
    else (s', Ok(true))
  }
}
