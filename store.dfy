/**
 * The graph store as the operations layer changes it: nodes and
 * relationships are created one call at a time, and each detector merges
 * its candidate relationships into the store.
 */
module Store {
  import opened Graph
  import opened Shareholders
  import opened ShareholderRoundTrip
  import opened Inference
  import opened InferenceProperties

  /** The fields of a User that the store and the detectors read. */
  datatype UserInput = UserInput(
    id: string,
    name: string,
    email: Option<string>,
    phone: Option<string>,
    address: Option<string>,
    paymentMethods: Option<seq<string>>,
    entityType: Option<string>,
    directors: Option<seq<string>>,
    shareholders: Option<seq<Shareholder>>,
    parentEntityId: Option<string>)

  datatype TransactionInput = TransactionInput(
    id: string,
    senderId: string,
    receiverId: string,
    ipAddress: Option<string>,
    deviceId: Option<string>)

  /** A business relationship; `details` is given as the text `str(details)` renders. */
  datatype RelationshipInput = RelationshipInput(
    sourceId: string,
    targetId: string,
    relationshipType: string,
    strength: Option<real>,
    details: Option<string>,
    createdAt: Time)

  /** What a create call returns: the new element, nothing (no row matched), or a uniqueness-constraint error. */
  datatype Created<T> = Created(value: T) | NoMatch | ConstraintViolation

  /** The result of the shareholder pass: its relationship count, or the exception `float()` raised. */
  datatype PassResult = Completed(count: nat) | Raised

  /** The User node create_user writes: shareholders are stored as their `str()` text, an empty list as null. */
  function StoredUser(u: UserInput): (n: UserNode)
    ensures n.id == u.id && n.email == u.email && n.phone == u.phone && n.address == u.address
    ensures n.directors == u.directors && n.parentEntityId == u.parentEntityId && n.paymentMethods == u.paymentMethods
    ensures n.shareholders.None? <==> u.shareholders.None? || u.shareholders.value == []
  {
    UserNode(u.id, u.name, u.email, u.phone, u.address, u.paymentMethods, u.entityType,
             u.directors, StoredShareholders(u.shareholders), u.parentEntityId)
  }

  /** A user created with plain shareholder records stores a text the shareholder pass reads back. */
  lemma StoredUserParses(u: UserInput)
    requires u.shareholders.Some? ==> PlainRecords(u.shareholders.value)
    ensures StoredFromRecords(StoredUser(u))
  {
    if u.shareholders.Some? && u.shareholders.value != [] {
      var xs := u.shareholders.value;
      assert StoredUser(u).shareholders == Some(ListText(xs));
    }
  }

  function StoredTransaction(t: TransactionInput): (n: TransactionNode)
    ensures n.id == t.id && n.ipAddress == t.ipAddress && n.deviceId == t.deviceId
  {
    TransactionNode(t.id, t.ipAddress, t.deviceId)
  }

  /** The properties create_business_relationship writes; a null strength or details is not stored. */
  function RelationshipProps(r: RelationshipInput): (props: Props)
    ensures "created_at" in props && props["created_at"] == Clock(r.createdAt)
    ensures "strength" in props <==> r.strength.Some?
    ensures r.strength.Some? ==> props["strength"] == Num(r.strength.value)
    ensures "details_str" in props <==> r.details.Some?
    ensures r.details.Some? ==> props["details_str"] == Str(r.details.value)
    ensures forall k | k in props :: k in {"created_at", "strength", "details_str"}
  {
    var base := map["created_at" := Clock(r.createdAt)];
    var withStrength := if r.strength.Some? then base["strength" := Num(r.strength.value)] else base;
    if r.details.Some? then withStrength["details_str" := Str(r.details.value)] else withStrength
  }

  lemma {:induction false} ParentRowsEven(xs: seq<UserNode>, ys: seq<UserNode>, now: Time)
    ensures |Pairs(xs, ys, ParentPatterns(now))| % 2 == 0
    decreases |xs|
  {
    if xs != [] {
      ParentRowEven(xs[0], ys, now);
      ParentRowsEven(xs[1..], ys, now);
    }
  }

  lemma {:induction false} ParentRowEven(x: UserNode, ys: seq<UserNode>, now: Time)
    ensures |Row(x, ys, ParentPatterns(now))| % 2 == 0
    decreases |ys|
  {
    if ys != [] {
      ParentRowEven(x, ys[1..], now);
    }
  }

  class GraphStore {
    var users: seq<UserNode>
    var transactions: seq<TransactionNode>
    var edges: seq<Edge>

    /**
     * The uniqueness constraints on User.id and Transaction.id hold. The
     * model assumes the database has the constraints of create_constraints
     * (app/utils/init_db.py) installed.
     */
    ghost predicate Valid()
      reads this
    {
      UniqueUserIds(users) && UniqueTransactionIds(transactions)
    }

    function Snapshot(): Graph
      reads this
    {
      Graph(users, transactions, edges)
    }

    /** An empty database. */
    constructor()
      ensures Valid() && Snapshot() == Graph([], [], [])
    {
      users := [];
      transactions := [];
      edges := [];
    }

    /** create_user: a CREATE of one User node; a second User with the same id violates the constraint. */
    method CreateUser(u: UserInput) returns (r: Created<UserNode>)
      requires Valid()
      modifies this
      ensures Valid()
      ensures HasUser(old(users), u.id) ==> r == ConstraintViolation && users == old(users)
      ensures !HasUser(old(users), u.id) ==> r == Created(StoredUser(u)) && users == old(users) + [StoredUser(u)]
      ensures transactions == old(transactions) && edges == old(edges)
    {
      if HasUser(users, u.id) {
        return ConstraintViolation;
      }
      var n := StoredUser(u);
      users := users + [n];
      return Created(n);
    }

    /**
     * create_transaction: both endpoint Users must match, otherwise nothing
     * is created; then one Transaction node, SENT from the sender and
     * RECEIVED_BY to the receiver.
     */
    method CreateTransaction(t: TransactionInput) returns (r: Created<TransactionNode>)
      requires Valid()
      modifies this
      ensures Valid()
      ensures users == old(users)
      ensures !HasUser(users, t.senderId) || !HasUser(users, t.receiverId) ==>
        r == NoMatch && transactions == old(transactions) && edges == old(edges)
      ensures HasUser(users, t.senderId) && HasUser(users, t.receiverId) && HasTransaction(old(transactions), t.id) ==>
        r == ConstraintViolation && transactions == old(transactions) && edges == old(edges)
      ensures HasUser(users, t.senderId) && HasUser(users, t.receiverId) && !HasTransaction(old(transactions), t.id) ==>
        && r == Created(StoredTransaction(t))
        && transactions == old(transactions) + [StoredTransaction(t)]
        && edges == old(edges) + [Edge(UserRef(t.senderId), TxRef(t.id), SENT, map[]),
                                  Edge(TxRef(t.id), UserRef(t.receiverId), RECEIVED_BY, map[])]
    {
      if !HasUser(users, t.senderId) || !HasUser(users, t.receiverId) {
        return NoMatch;
      }
      if HasTransaction(transactions, t.id) {
        return ConstraintViolation;
      }
      var n := StoredTransaction(t);
      transactions := transactions + [n];
      edges := edges + [Edge(UserRef(t.senderId), TxRef(n.id), SENT, map[])];
      edges := edges + [Edge(TxRef(n.id), UserRef(t.receiverId), RECEIVED_BY, map[])];
      return Created(n);
    }

    /**
     * create_business_relationship: a CREATE, not a MERGE, so every call
     * with existing endpoints appends a new relationship, parallel to any
     * earlier one.
     */
    method CreateBusinessRelationship(rel: RelationshipInput) returns (r: Created<Edge>)
      modifies this
      ensures users == old(users) && transactions == old(transactions)
      ensures !HasUser(users, rel.sourceId) || !HasUser(users, rel.targetId) ==> r == NoMatch && edges == old(edges)
      ensures HasUser(users, rel.sourceId) && HasUser(users, rel.targetId) ==>
        var e := Edge(UserRef(rel.sourceId), UserRef(rel.targetId), rel.relationshipType, RelationshipProps(rel));
        r == Created(e) && edges == old(edges) + [e]
    {
      if !HasUser(users, rel.sourceId) || !HasUser(users, rel.targetId) {
        return NoMatch;
      }
      var e := Edge(UserRef(rel.sourceId), UserRef(rel.targetId), rel.relationshipType, RelationshipProps(rel));
      edges := edges + [e];
      return Created(e);
    }

    /** _create_shared_email/phone/address_relationships; the count is the number of matched rows. */
    method CreateSharedAttributeRelationships(a: Attribute) returns (count: nat)
      modifies this
      ensures users == old(users) && transactions == old(transactions)
      ensures edges == MergeAll(old(edges), SharedCandidates(users, a), true)
      ensures count == |SharedCandidates(users, a)|
    {
      var wants := SharedCandidates(users, a);
      edges := MergeAll(edges, wants, true);
      count := |wants|;
    }

    /** _create_shared_payment_method_relationships. */
    method CreateSharedPaymentMethodRelationships() returns (count: nat)
      modifies this
      ensures users == old(users) && transactions == old(transactions)
      ensures edges == MergeAll(old(edges), PaymentCandidates(users), true)
      ensures count == |PaymentCandidates(users)|
    {
      var wants := PaymentCandidates(users);
      edges := MergeAll(edges, wants, true);
      count := |wants|;
    }

    /** _create_linked_transaction_relationships: the IP query, then the device query, both undirected. */
    method CreateLinkedTransactionRelationships() returns (ipCount: nat, deviceCount: nat)
      modifies this
      ensures users == old(users) && transactions == old(transactions)
      ensures edges == MergeAll(MergeAll(old(edges), LinkCandidates(transactions, SharedIp), false),
                                LinkCandidates(transactions, SharedDevice), false)
      ensures ipCount == |LinkCandidates(transactions, SharedIp)|
      ensures deviceCount == |LinkCandidates(transactions, SharedDevice)|
    {
      var ipWants := LinkCandidates(transactions, SharedIp);
      edges := MergeAll(edges, ipWants, false);
      var deviceWants := LinkCandidates(transactions, SharedDevice);
      edges := MergeAll(edges, deviceWants, false);
      ipCount := |ipWants|;
      deviceCount := |deviceWants|;
    }

    /** _create_parent_child_relationships; each matched row merges two relationships and counts once. */
    method CreateParentChildRelationships(now: Time) returns (count: nat)
      modifies this
      ensures users == old(users) && transactions == old(transactions)
      ensures edges == MergeAll(old(edges), ParentCandidates(users, now), true)
      ensures 2 * count == |ParentCandidates(users, now)|
    {
      var wants := ParentCandidates(users, now);
      edges := MergeAll(edges, wants, true);
      ParentRowsEven(users, users, now);
      count := |wants| / 2;
    }

    /** _create_director_relationships. */
    method CreateDirectorRelationships(now: Time) returns (count: nat)
      modifies this
      ensures users == old(users) && transactions == old(transactions)
      ensures edges == MergeAll(old(edges), DirectorCandidates(users, now), true)
      ensures count == |DirectorCandidates(users, now)|
    {
      var wants := DirectorCandidates(users, now);
      edges := MergeAll(edges, wants, true);
      count := |wants|;
    }

    /**
     * _create_shareholder_relationships: for each User with a shareholders
     * text, in store order, skip texts of the wrong shape and merge the
     * shareholders the text lists. A percentage `float()` rejects raises and
     * leaves the relationships merged so far. The company at store position
     * c runs its statements with the clocks `clocks(c)`.
     */
    method CreateShareholderRelationships(clocks: Clocks) returns (r: PassResult)
      modifies this
      ensures users == old(users) && transactions == old(transactions)
      ensures edges == ShareholderPass(old(edges), users, clocks)
      ensures r.Raised? <==> ShareholderWants(users, clocks).failed
      ensures r.Completed? ==> r.count == |ShareholderWants(users, clocks).edges|
    {
      var nodes := users;
      ghost var total := ShareholderWants(nodes, clocks);
      var count := 0;
      ghost var done: seq<Edge> := [];
      var c := 0;
      while c < |nodes|
        invariant c <= |nodes|
        invariant users == nodes && transactions == old(transactions)
        invariant edges == MergeAll(old(edges), done, true)
        invariant count == |done|
        invariant total == Wants(done + CompaniesWants(nodes, c, clocks).edges, CompaniesWants(nodes, c, clocks).failed)
        decreases |nodes| - c
      {
        var company := nodes[c];
        if company.shareholders.None? || !WellShaped(company.shareholders.value) {
          CompanySkipped(nodes, c, clocks, done, total);
        } else {
          ghost var before := edges;
          var text := company.shareholders.value;
          var added, raised := MergeCompanyShareholders(company.id, FindIds(text), Floats(FindPercentages(text)), clocks(c));
          ghost var inner := CompanyWants(nodes, company.id, text, clocks(c)).edges;
          CompanyMerged(nodes, c, clocks, done, total, old(edges), before, edges, raised);
          if raised {
            return Raised;
          }
          done := done + inner;
          count := count + added;
        }
        c := c + 1;
      }
      assert done + [] == done;
      return Completed(count);
    }

    /**
     * The inner loop of _create_shareholder_relationships for one company,
     * over the ids the first scan extracted and `float()` of each percentage
     * text the second one extracted (`float()` depends on its text alone, so
     * reading them up front changes nothing): each id is paired with the
     * percentage at the same index (0.0 when there is none), the first
     * percentage `float()` rejects raises,
     * and SHAREHOLDER_OF is merged when a User with that id exists and is not
     * the company itself. Each query2 is a statement of its own, and the one
     * for index i reads the clock `at(i)`.
     */
    method MergeCompanyShareholders(companyId: string, ids: seq<string>, floats: seq<Option<real>>, at: nat -> Time) returns (added: nat, raised: bool)
      modifies this
      ensures users == old(users) && transactions == old(transactions)
      ensures edges == MergeAll(old(edges), EntryWants(users, companyId, ids, floats, 0, at).edges, true)
      ensures raised == EntryWants(users, companyId, ids, floats, 0, at).failed
      ensures added == |EntryWants(users, companyId, ids, floats, 0, at).edges|
    {
      ghost var nodes := users;
      ghost var total := EntryWants(nodes, companyId, ids, floats, 0, at);
      ghost var inner: seq<Edge> := [];
      added := 0;
      var i := 0;
      while i < |ids|
        invariant i <= |ids| && added == |inner|
        invariant users == nodes && transactions == old(transactions)
        invariant edges == MergeAll(old(edges), inner, true)
        invariant total == Wants(inner + EntryWants(nodes, companyId, ids, floats, i, at).edges,
                                 EntryWants(nodes, companyId, ids, floats, i, at).failed)
        decreases |ids| - i
      {
        var percentage := PercentageAt(floats, i);
        if percentage.None? {
          EntryStops(nodes, companyId, ids, floats, i, at, inner);
          return added, true;
        }
        var clock := at(i);
        ghost var pattern := ShareholderPattern(nodes, companyId, ids[i], percentage.value, clock);
        var merged := MergeShareholder(companyId, ids[i], percentage.value, clock);
        EntryTaken(nodes, companyId, ids, floats, i, at, percentage.value, old(edges), inner);
        if merged {
          added := added + 1;
        }
        inner := inner + pattern;
        i := i + 1;
      }
      EntriesEnd(nodes, companyId, ids, floats, at, inner);
      return added, false;
    }

    /**
     * query2 of _create_shareholder_relationships for one row: MATCH the
     * shareholder and the company (other than each other), then MERGE
     * SHAREHOLDER_OF with the percentage and the clock.
     */
    method MergeShareholder(companyId: string, shareholderId: string, percentage: real, now: Time) returns (matched: bool)
      modifies this
      ensures users == old(users) && transactions == old(transactions)
      ensures matched <==> HasUser(users, shareholderId) && shareholderId != companyId
      ensures edges == MergeAll(old(edges), ShareholderPattern(users, companyId, shareholderId, percentage, now), true)
    {
      matched := HasUser(users, shareholderId) && shareholderId != companyId;
      if matched {
        edges := Merge(edges, ShareholderEdge(shareholderId, companyId, percentage, now), true);
      }
      MergePattern(old(edges), [], users, companyId, shareholderId, percentage, now);
    }

    /** _create_composite_relationships; the count is the number of pairs with two or more types. */
    method CreateCompositeRelationships(now: Time) returns (count: nat)
      modifies this
      ensures users == old(users) && transactions == old(transactions)
      ensures edges == CompositePass(old(edges), users, now)
      ensures count == |CompositeCandidates(old(edges), users, now)|
    {
      var wants := CompositeCandidates(edges, users, now);
      edges := MergeAll(edges, wants, true);
      count := |wants|;
    }

    /**
     * detect_and_create_relationships: the detectors in their fixed order;
     * an exception in the shareholder pass ends the run before composite.
     */
    method DetectAndCreateRelationships(now: Time, clocks: Clocks) returns (completed: bool)
      modifies this
      ensures Snapshot() == RunInference(old(Snapshot()), now, clocks).graph
      ensures completed == RunInference(old(Snapshot()), now, clocks).completed
    {
      ghost var g := Snapshot();
      var _ := CreateSharedAttributeRelationships(Email);
      ghost var e1 := edges;
      var _ := CreateSharedAttributeRelationships(Phone);
      ghost var e2 := edges;
      var _ := CreateSharedAttributeRelationships(Address);
      ghost var e3 := edges;
      var _ := CreateSharedPaymentMethodRelationships();
      ghost var e4 := edges;
      var _, _ := CreateLinkedTransactionRelationships();
      ghost var e6 := edges;
      var _ := CreateParentChildRelationships(now);
      ghost var e7 := edges;
      var _ := CreateDirectorRelationships(now);
      PassOrder();
      SharedStep(g, now, 0, Email, g.edges, e1);
      SharedStep(g, now, 1, Phone, e1, e2);
      SharedStep(g, now, 2, Address, e2, e3);
      PaymentStep(g, now, 3, e3, e4);
      LinkStep(g, now, 4, SharedIp, e4, MergeAll(e4, LinkCandidates(g.transactions, SharedIp), false));
      LinkStep(g, now, 5, SharedDevice, MergeAll(e4, LinkCandidates(g.transactions, SharedIp), false), e6);
      ParentStep(g, now, 6, e6, e7);
      DirectorStep(g, now, 7, e7, edges);
      PassesDone(g, now, edges);
      var r := CreateShareholderRelationships(clocks);
      RunKeepsNodes(g, now, clocks);
      if r.Raised? {
        RunStopsOnRaise(g, now, clocks);
        return false;
      }
      var _ := CreateCompositeRelationships(now);
      RunEndsWithComposite(g, now, clocks);
      return true;
    }
  }

  /** A shared-attribute detector run as pass j + 1 extends the first j passes to j + 1. */
  lemma SharedStep(g: Graph, now: Time, j: nat, a: Attribute, before: seq<Edge>, after: seq<Edge>)
    requires j < PASS_COUNT && PassAt(j) == SharedAttributePass(a)
    requires before == AfterFirst(g, now, j)
    requires after == MergeAll(before, SharedCandidates(g.users, a), true)
    ensures after == AfterFirst(g, now, j + 1)
  {
  }

  /** The same for the payment-method detector. */
  lemma PaymentStep(g: Graph, now: Time, j: nat, before: seq<Edge>, after: seq<Edge>)
    requires j < PASS_COUNT && PassAt(j) == PaymentMethodPass
    requires before == AfterFirst(g, now, j)
    requires after == MergeAll(before, PaymentCandidates(g.users), true)
    ensures after == AfterFirst(g, now, j + 1)
  {
  }

  /** The same for one query of the linked-transaction detector. */
  lemma LinkStep(g: Graph, now: Time, j: nat, f: Fingerprint, before: seq<Edge>, after: seq<Edge>)
    requires j < PASS_COUNT && PassAt(j) == LinkedPass(f)
    requires before == AfterFirst(g, now, j)
    requires after == MergeAll(before, LinkCandidates(g.transactions, f), false)
    ensures after == AfterFirst(g, now, j + 1)
  {
  }

  /** The same for the parent-child detector. */
  lemma ParentStep(g: Graph, now: Time, j: nat, before: seq<Edge>, after: seq<Edge>)
    requires j < PASS_COUNT && PassAt(j) == ParentChildPass
    requires before == AfterFirst(g, now, j)
    requires after == MergeAll(before, ParentCandidates(g.users, now), true)
    ensures after == AfterFirst(g, now, j + 1)
  {
  }

  /** The same for the director detector. */
  lemma DirectorStep(g: Graph, now: Time, j: nat, before: seq<Edge>, after: seq<Edge>)
    requires j < PASS_COUNT && PassAt(j) == DirectorPass
    requires before == AfterFirst(g, now, j)
    requires after == MergeAll(before, DirectorCandidates(g.users, now), true)
    ensures after == AfterFirst(g, now, j + 1)
  {
  }

  /** Eight passes are all the MERGE passes there are. */
  lemma PassesDone(g: Graph, now: Time, e8: seq<Edge>)
    requires e8 == AfterFirst(g, now, 8)
    ensures e8 == AfterPasses(g, now)
  {
  }

  /** Unfolding helper for DetectAndCreateRelationships: the run's nodes and outcome, read off RunInference. */
  lemma RunKeepsNodes(g: Graph, now: Time, clocks: Clocks)
    ensures RunInference(g, now, clocks).graph.users == g.users
    ensures RunInference(g, now, clocks).graph.transactions == g.transactions
    ensures RunInference(g, now, clocks).completed == !ShareholderWants(g.users, clocks).failed
  {
  }

  // Invariant upkeep for the shareholder loops, one step each.

  lemma CompanySkipped(users: seq<UserNode>, c: nat, clocks: Clocks, done: seq<Edge>, total: Wants)
    requires c < |users| && (users[c].shareholders.None? || !WellShaped(users[c].shareholders.value))
    requires total == Wants(done + CompaniesWants(users, c, clocks).edges, CompaniesWants(users, c, clocks).failed)
    ensures total == Wants(done + CompaniesWants(users, c + 1, clocks).edges, CompaniesWants(users, c + 1, clocks).failed)
  {
    assert [] + CompaniesWants(users, c + 1, clocks).edges == CompaniesWants(users, c + 1, clocks).edges;
  }

  /** One company of the outer loop: its inner loop merged its wants, and the pass either raised there or moves on. */
  lemma CompanyMerged(users: seq<UserNode>, c: nat, clocks: Clocks, done: seq<Edge>, total: Wants,
                      start: seq<Edge>, before: seq<Edge>, after: seq<Edge>, raised: bool)
    requires c < |users| && users[c].shareholders.Some? && WellShaped(users[c].shareholders.value)
    requires total == Wants(done + CompaniesWants(users, c, clocks).edges, CompaniesWants(users, c, clocks).failed)
    requires before == MergeAll(start, done, true)
    requires var text := users[c].shareholders.value;
      var entries := EntryWants(users, users[c].id, FindIds(text), Floats(FindPercentages(text)), 0, clocks(c));
      after == MergeAll(before, entries.edges, true) && raised == entries.failed
    ensures var w := CompanyWants(users, users[c].id, users[c].shareholders.value, clocks(c));
      && after == MergeAll(start, done + w.edges, true)
      && raised == w.failed
      && (raised ==> total == Wants(done + w.edges, true))
      && (!raised ==> total == Wants((done + w.edges) + CompaniesWants(users, c + 1, clocks).edges, CompaniesWants(users, c + 1, clocks).failed))
  {
    var w := CompanyWants(users, users[c].id, users[c].shareholders.value, clocks(c));
    MergeAllAppend(start, done, w.edges, true);
    if raised {
      CompanyRaised(users, c, clocks, done, w.edges, total);
    } else {
      CompanyFinished(users, c, clocks, done, w.edges, total);
    }
  }

  lemma CompanyRaised(users: seq<UserNode>, c: nat, clocks: Clocks, done: seq<Edge>, inner: seq<Edge>, total: Wants)
    requires c < |users| && users[c].shareholders.Some?
    requires total == Wants(done + CompaniesWants(users, c, clocks).edges, CompaniesWants(users, c, clocks).failed)
    requires CompanyWants(users, users[c].id, users[c].shareholders.value, clocks(c)) == Wants(inner, true)
    ensures total == Wants(done + inner, true)
  {
  }

  lemma CompanyFinished(users: seq<UserNode>, c: nat, clocks: Clocks, done: seq<Edge>, inner: seq<Edge>, total: Wants)
    requires c < |users| && users[c].shareholders.Some?
    requires total == Wants(done + CompaniesWants(users, c, clocks).edges, CompaniesWants(users, c, clocks).failed)
    requires CompanyWants(users, users[c].id, users[c].shareholders.value, clocks(c)) == Wants(inner, false)
    ensures total == Wants((done + inner) + CompaniesWants(users, c + 1, clocks).edges, CompaniesWants(users, c + 1, clocks).failed)
  {
    assert done + (inner + CompaniesWants(users, c + 1, clocks).edges) == (done + inner) + CompaniesWants(users, c + 1, clocks).edges;
  }

  lemma EntryStops(users: seq<UserNode>, companyId: string, ids: seq<string>, floats: seq<Option<real>>, i: nat, at: nat -> Time, inner: seq<Edge>)
    requires i < |ids| && PercentageAt(floats, i).None?
    requires EntryWants(users, companyId, ids, floats, 0, at)
          == Wants(inner + EntryWants(users, companyId, ids, floats, i, at).edges,
                   EntryWants(users, companyId, ids, floats, i, at).failed)
    ensures EntryWants(users, companyId, ids, floats, 0, at) == Wants(inner, true)
  {
    assert inner + [] == inner;
  }

  lemma EntriesEnd(users: seq<UserNode>, companyId: string, ids: seq<string>, floats: seq<Option<real>>, at: nat -> Time, inner: seq<Edge>)
    requires EntryWants(users, companyId, ids, floats, 0, at)
          == Wants(inner + EntryWants(users, companyId, ids, floats, |ids|, at).edges,
                   EntryWants(users, companyId, ids, floats, |ids|, at).failed)
    ensures EntryWants(users, companyId, ids, floats, 0, at) == Wants(inner, false)
  {
    assert inner + [] == inner;
  }

  /** One row of the inner loop: its query2 pattern joins the merged rows and the remaining entries move on. */
  lemma EntryTaken(users: seq<UserNode>, companyId: string, ids: seq<string>, floats: seq<Option<real>>, i: nat, at: nat -> Time,
                   p: real, edges: seq<Edge>, inner: seq<Edge>)
    requires i < |ids| && PercentageAt(floats, i) == Some(p)
    requires EntryWants(users, companyId, ids, floats, 0, at)
          == Wants(inner + EntryWants(users, companyId, ids, floats, i, at).edges,
                   EntryWants(users, companyId, ids, floats, i, at).failed)
    ensures var pattern := ShareholderPattern(users, companyId, ids[i], p, at(i));
      && EntryWants(users, companyId, ids, floats, 0, at)
          == Wants((inner + pattern) + EntryWants(users, companyId, ids, floats, i + 1, at).edges,
                   EntryWants(users, companyId, ids, floats, i + 1, at).failed)
      && MergeAll(MergeAll(edges, inner, true), pattern, true) == MergeAll(edges, inner + pattern, true)
  {
    var pattern := ShareholderPattern(users, companyId, ids[i], p, at(i));
    Associative(inner, pattern, EntryWants(users, companyId, ids, floats, i + 1, at).edges);
    MergeAllAppend(edges, inner, pattern, true);
  }

  lemma Associative(a: seq<Edge>, b: seq<Edge>, c: seq<Edge>)
    ensures (a + b) + c == a + (b + c)
  {
  }

  /** MERGE of one query2 row: a row query2 does not produce merges nothing. */
  lemma MergePattern(edges: seq<Edge>, prior: seq<Edge>, users: seq<UserNode>, companyId: string, shareholderId: string, p: real, now: Time)
    ensures MergeAll(edges, prior + ShareholderPattern(users, companyId, shareholderId, p, now), true)
         == if HasUser(users, shareholderId) && shareholderId != companyId
            then Merge(MergeAll(edges, prior, true), ShareholderEdge(shareholderId, companyId, p, now), true)
            else MergeAll(edges, prior, true)
  {
    var pattern := ShareholderPattern(users, companyId, shareholderId, p, now);
    MergeAllAppend(edges, prior, pattern, true);
    if pattern == [] {
      assert prior + pattern == prior;
    } else {
      var once := Merge(MergeAll(edges, prior, true), pattern[0], true);
      assert MergeAll(once, [], true) == once;
    }
  }
}
