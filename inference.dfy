/**
 * The relationship-inference passes as pure functions on the store.
 * Each detector's MATCH ... WHERE becomes the sequence of relationship
 * patterns its rows MERGE, in row order, and the pass itself is
 * `MergeAll` of those patterns into the relationship sequence.
 */
module Inference {
  import opened Graph
  import opened Shareholders

  // ---------------------------------------------------------------------
  // SHARED_EMAIL, SHARED_PHONE, SHARED_ADDRESS
  // ---------------------------------------------------------------------

  datatype Attribute = Email | Phone | Address

  function AttributeValue(u: UserNode, a: Attribute): Option<string> {
    match a
    case Email => u.email
    case Phone => u.phone
    case Address => u.address
  }

  function SharedType(a: Attribute): string {
    match a
    case Email => SHARED_EMAIL
    case Phone => SHARED_PHONE
    case Address => SHARED_ADDRESS
  }

  function AttributeKey(a: Attribute): string {
    match a
    case Email => "email"
    case Phone => "phone"
    case Address => "address"
  }

  /** `u1.x IS NOT NULL AND u1.x = u2.x AND u1.id <> u2.id` */
  predicate SharesAttribute(u1: UserNode, u2: UserNode, a: Attribute) {
    AttributeValue(u1, a).Some? && AttributeValue(u1, a) == AttributeValue(u2, a) && u1.id != u2.id
  }

  function SharedEdge(u1: UserNode, u2: UserNode, a: Attribute): Edge
    requires AttributeValue(u1, a).Some?
  {
    Edge(UserRef(u1.id), UserRef(u2.id), SharedType(a), map[AttributeKey(a) := Str(AttributeValue(u1, a).value)])
  }

  function SharedPatterns(a: Attribute): (UserNode, UserNode) -> seq<Edge> {
    (u1: UserNode, u2: UserNode) => if SharesAttribute(u1, u2, a) then [SharedEdge(u1, u2, a)] else []
  }

  function SharedCandidates(users: seq<UserNode>, a: Attribute): seq<Edge> {
    Pairs(users, users, SharedPatterns(a))
  }

  predicate IsSharedEdge(users: seq<UserNode>, a: Attribute, e: Edge) {
    exists i, j | 0 <= i < |users| && 0 <= j < |users| ::
      SharesAttribute(users[i], users[j], a) && e == SharedEdge(users[i], users[j], a)
  }

  lemma SharedCandidatesMember(users: seq<UserNode>, a: Attribute, e: Edge)
    ensures e in SharedCandidates(users, a) <==> IsSharedEdge(users, a, e)
  {
    PairsMember(users, users, SharedPatterns(a), e);
  }

  // ---------------------------------------------------------------------
  // SHARED_PAYMENT_METHOD
  // ---------------------------------------------------------------------

  /** `[pm IN m1 WHERE pm IN m2]`: the first list filtered to items of the second, in order. */
  function SharedMethods(m1: seq<string>, m2: seq<string>): (r: seq<string>)
    ensures forall x :: x in r <==> x in m1 && x in m2
    ensures forall x :: multiset(r)[x] == if x in m2 then multiset(m1)[x] else 0
    ensures |r| <= |m1|
  {
    if m1 == [] then []
    else
      assert m1 == [m1[0]] + m1[1..];
      (if m1[0] in m2 then [m1[0]] else []) + SharedMethods(m1[1..], m2)
  }

  /** The filter keeps the first list's order: filtering a concatenation filters each part in turn. */
  lemma {:induction false} SharedMethodsAppend(a: seq<string>, b: seq<string>, m2: seq<string>)
    ensures SharedMethods(a + b, m2) == SharedMethods(a, m2) + SharedMethods(b, m2)
    decreases |a|
  {
    if a == [] {
      assert a + b == b;
    } else {
      assert (a + b)[0] == a[0] && (a + b)[1..] == a[1..] + b;
      SharedMethodsAppend(a[1..], b, m2);
    }
  }

  /** A one-method list is kept exactly when the second list has it. */
  lemma SharedMethodsSingle(x: string, m2: seq<string>)
    ensures SharedMethods([x], m2) == if x in m2 then [x] else []
  {
    assert [x][1..] == [];
  }

  /** `u1.id <> u2.id AND any(pm IN u1.payment_methods WHERE pm IN u2.payment_methods)` */
  predicate SharesPaymentMethod(u1: UserNode, u2: UserNode) {
    && u1.id != u2.id
    && u1.paymentMethods.Some? && u2.paymentMethods.Some?
    && SharedMethods(u1.paymentMethods.value, u2.paymentMethods.value) != []
  }

  function PaymentEdge(u1: UserNode, u2: UserNode): Edge
    requires u1.paymentMethods.Some? && u2.paymentMethods.Some?
  {
    Edge(UserRef(u1.id), UserRef(u2.id), SHARED_PAYMENT_METHOD,
         map["methods" := StrList(SharedMethods(u1.paymentMethods.value, u2.paymentMethods.value))])
  }

  function PaymentPatterns(): (UserNode, UserNode) -> seq<Edge> {
    (u1: UserNode, u2: UserNode) => if SharesPaymentMethod(u1, u2) then [PaymentEdge(u1, u2)] else []
  }

  function PaymentCandidates(users: seq<UserNode>): seq<Edge> {
    Pairs(users, users, PaymentPatterns())
  }

  predicate IsPaymentEdge(users: seq<UserNode>, e: Edge) {
    exists i, j | 0 <= i < |users| && 0 <= j < |users| ::
      SharesPaymentMethod(users[i], users[j]) && e == PaymentEdge(users[i], users[j])
  }

  lemma PaymentCandidatesMember(users: seq<UserNode>, e: Edge)
    ensures e in PaymentCandidates(users) <==> IsPaymentEdge(users, e)
  {
    PairsMember(users, users, PaymentPatterns(), e);
  }

  // ---------------------------------------------------------------------
  // LINKED_TO
  // ---------------------------------------------------------------------

  datatype Fingerprint = SharedIp | SharedDevice

  function FingerprintValue(t: TransactionNode, f: Fingerprint): Option<string> {
    match f
    case SharedIp => t.ipAddress
    case SharedDevice => t.deviceId
  }

  function Reason(f: Fingerprint): string {
    match f
    case SharedIp => "shared_ip"
    case SharedDevice => "shared_device"
  }

  function FingerprintKey(f: Fingerprint): string {
    match f
    case SharedIp => "ip_address"
    case SharedDevice => "device_id"
  }

  /** `t1.x IS NOT NULL AND t1.x = t2.x AND t1.id <> t2.id` */
  predicate SharesFingerprint(t1: TransactionNode, t2: TransactionNode, f: Fingerprint) {
    FingerprintValue(t1, f).Some? && FingerprintValue(t1, f) == FingerprintValue(t2, f) && t1.id != t2.id
  }

  function LinkEdge(t1: TransactionNode, t2: TransactionNode, f: Fingerprint): Edge
    requires FingerprintValue(t1, f).Some?
  {
    Edge(TxRef(t1.id), TxRef(t2.id), LINKED_TO,
         map["reason" := Str(Reason(f)), FingerprintKey(f) := Str(FingerprintValue(t1, f).value)])
  }

  function LinkPatterns(f: Fingerprint): (TransactionNode, TransactionNode) -> seq<Edge> {
    (t1: TransactionNode, t2: TransactionNode) => if SharesFingerprint(t1, t2, f) then [LinkEdge(t1, t2, f)] else []
  }

  function LinkCandidates(txs: seq<TransactionNode>, f: Fingerprint): seq<Edge> {
    Pairs(txs, txs, LinkPatterns(f))
  }

  predicate IsLinkEdge(txs: seq<TransactionNode>, f: Fingerprint, e: Edge) {
    exists i, j | 0 <= i < |txs| && 0 <= j < |txs| ::
      SharesFingerprint(txs[i], txs[j], f) && e == LinkEdge(txs[i], txs[j], f)
  }

  lemma LinkCandidatesMember(txs: seq<TransactionNode>, f: Fingerprint, e: Edge)
    ensures e in LinkCandidates(txs, f) <==> IsLinkEdge(txs, f, e)
  {
    PairsMember(txs, txs, LinkPatterns(f), e);
  }

  // ---------------------------------------------------------------------
  // PARENT_OF / SUBSIDIARY_OF and DIRECTOR_OF
  // ---------------------------------------------------------------------

  /** `child.parent_entity_id IS NOT NULL AND child.parent_entity_id = parent.id AND child.id <> parent.id` */
  predicate IsParentOf(parent: UserNode, child: UserNode) {
    child.parentEntityId == Some(parent.id) && child.id != parent.id
  }

  function ParentEdge(parent: UserNode, child: UserNode, now: Time): Edge {
    Edge(UserRef(parent.id), UserRef(child.id), PARENT_OF, map["created_at" := Clock(now)])
  }

  function SubsidiaryEdge(parent: UserNode, child: UserNode, now: Time): Edge {
    Edge(UserRef(child.id), UserRef(parent.id), SUBSIDIARY_OF, map["created_at" := Clock(now)])
  }

  /** Rows `(child, parent)`; each row merges PARENT_OF and then SUBSIDIARY_OF. */
  function ParentPatterns(now: Time): (UserNode, UserNode) -> seq<Edge> {
    (child: UserNode, parent: UserNode) =>
      if IsParentOf(parent, child) then [ParentEdge(parent, child, now), SubsidiaryEdge(parent, child, now)] else []
  }

  function ParentCandidates(users: seq<UserNode>, now: Time): seq<Edge> {
    Pairs(users, users, ParentPatterns(now))
  }

  predicate IsParentChildEdge(users: seq<UserNode>, now: Time, e: Edge) {
    exists i, j | 0 <= i < |users| && 0 <= j < |users| ::
      IsParentOf(users[j], users[i]) && (e == ParentEdge(users[j], users[i], now) || e == SubsidiaryEdge(users[j], users[i], now))
  }

  lemma ParentCandidatesMember(users: seq<UserNode>, now: Time, e: Edge)
    ensures e in ParentCandidates(users, now) <==> IsParentChildEdge(users, now, e)
  {
    PairsMember(users, users, ParentPatterns(now), e);
  }

  /** `company.directors IS NOT NULL AND director.id IN company.directors AND company.id <> director.id` */
  predicate IsDirectorOf(director: UserNode, company: UserNode) {
    company.directors.Some? && director.id in company.directors.value && company.id != director.id
  }

  function DirectorEdge(director: UserNode, company: UserNode, now: Time): Edge {
    Edge(UserRef(director.id), UserRef(company.id), DIRECTOR_OF, map["created_at" := Clock(now)])
  }

  /** Rows `(company, director)`. */
  function DirectorPatterns(now: Time): (UserNode, UserNode) -> seq<Edge> {
    (company: UserNode, director: UserNode) =>
      if IsDirectorOf(director, company) then [DirectorEdge(director, company, now)] else []
  }

  function DirectorCandidates(users: seq<UserNode>, now: Time): seq<Edge> {
    Pairs(users, users, DirectorPatterns(now))
  }

  predicate IsDirectorEdge(users: seq<UserNode>, now: Time, e: Edge) {
    exists i, j | 0 <= i < |users| && 0 <= j < |users| ::
      IsDirectorOf(users[j], users[i]) && e == DirectorEdge(users[j], users[i], now)
  }

  lemma DirectorCandidatesMember(users: seq<UserNode>, now: Time, e: Edge)
    ensures e in DirectorCandidates(users, now) <==> IsDirectorEdge(users, now, e)
  {
    PairsMember(users, users, DirectorPatterns(now), e);
  }

  // ---------------------------------------------------------------------
  // SHAREHOLDER_OF
  // ---------------------------------------------------------------------

  /** The MERGE patterns of a pass, and whether `float()` raised before the pass finished. */
  datatype Wants = Wants(edges: seq<Edge>, failed: bool)

  function ShareholderEdge(shareholderId: string, companyId: string, percentage: real, now: Time): Edge {
    Edge(UserRef(shareholderId), UserRef(companyId), SHAREHOLDER_OF,
         map["percentage" := Num(percentage), "created_at" := Clock(now)])
  }

  /**
   * query2 for one extracted id: the MERGE happens only when a User with
   * that id exists and is not the company itself. `now` is the clock that
   * statement's datetime() reads.
   */
  function ShareholderPattern(users: seq<UserNode>, companyId: string, shareholderId: string, percentage: real, now: Time): seq<Edge> {
    if HasUser(users, shareholderId) && shareholderId != companyId then
      [ShareholderEdge(shareholderId, companyId, percentage, now)]
    else []
  }

  /**
   * Each query2 is a statement of its own and reads its own datetime():
   * `clocks(c)(i)` is the clock of the statement for the i-th extracted id
   * of the User at store position c. Nothing relates two such clocks.
   */
  type Clocks = nat -> nat -> Time

  /**
   * The inner loop from index `i` on: each id paired with the percentage at
   * the same index, its statement reading the clock `at(i)`.
   */
  function EntryWants(users: seq<UserNode>, companyId: string, ids: seq<string>, floats: seq<Option<real>>, i: nat, at: nat -> Time): Wants
    requires i <= |ids|
    decreases |ids| - i
  {
    if i == |ids| then Wants([], false)
    else match PercentageAt(floats, i) {
      case None => Wants([], true)
      case Some(p) =>
        var rest := EntryWants(users, companyId, ids, floats, i + 1, at);
        Wants(ShareholderPattern(users, companyId, ids[i], p, at(i)) + rest.edges, rest.failed)
    }
  }

  /** One company: texts that fail the shape test are skipped. */
  function CompanyWants(users: seq<UserNode>, companyId: string, text: string, at: nat -> Time): Wants {
    if !WellShaped(text) then Wants([], false)
    else EntryWants(users, companyId, FindIds(text), Floats(FindPercentages(text)), 0, at)
  }

  /** The outer loop from the c-th User on; Users without a shareholders text are not rows of query1. */
  function CompaniesWants(users: seq<UserNode>, c: nat, clocks: Clocks): Wants
    requires c <= |users|
    decreases |users| - c
  {
    if c == |users| then Wants([], false)
    else if users[c].shareholders.None? then CompaniesWants(users, c + 1, clocks)
    else
      var w := CompanyWants(users, users[c].id, users[c].shareholders.value, clocks(c));
      if w.failed then w
      else
        var rest := CompaniesWants(users, c + 1, clocks);
        Wants(w.edges + rest.edges, rest.failed)
  }

  function ShareholderWants(users: seq<UserNode>, clocks: Clocks): Wants {
    CompaniesWants(users, 0, clocks)
  }

  function ShareholderPass(edges: seq<Edge>, users: seq<UserNode>, clocks: Clocks): seq<Edge> {
    MergeAll(edges, ShareholderWants(users, clocks).edges, true)
  }

  // ---------------------------------------------------------------------
  // COMPOSITE
  // ---------------------------------------------------------------------

  predicate Distinct(s: seq<string>) {
    forall i, j | 0 <= i < |s| && 0 <= j < |s| && i != j :: s[i] != s[j]
  }

  /** `collect(distinct type(r))` over the relationships a -> b, in order of first occurrence. */
  function TypesBetween(edges: seq<Edge>, a: NodeRef, b: NodeRef): (r: seq<string>)
    ensures Distinct(r)
    ensures forall t :: t in r <==> exists k | 0 <= k < |edges| :: edges[k].src == a && edges[k].tgt == b && edges[k].relType == t
    decreases |edges|
  {
    if edges == [] then []
    else
      var before := TypesBetween(edges[..|edges| - 1], a, b);
      var e := edges[|edges| - 1];
      assert forall k | 0 <= k < |edges| - 1 :: edges[..|edges| - 1][k] == edges[k];
      if e.src == a && e.tgt == b && e.relType !in before then before + [e.relType] else before
  }

  function Indicator(b: bool, weight: nat): nat {
    if b then weight else 0
  }

  /**
   * The composite strength in tenths:
   * 0.2 per distinct type, 0.3 for a parent/subsidiary link, 0.2 each for
   * DIRECTOR_OF and SHAREHOLDER_OF, 0.1 for each SHARED_* type.
   */
  function Strength(types: seq<string>): nat {
    2 * |types|
    + Indicator(PARENT_OF in types || SUBSIDIARY_OF in types, 3)
    + Indicator(DIRECTOR_OF in types, 2)
    + Indicator(SHAREHOLDER_OF in types, 2)
    + Indicator(SHARED_EMAIL in types, 1)
    + Indicator(SHARED_PHONE in types, 1)
    + Indicator(SHARED_ADDRESS in types, 1)
    + Indicator(SHARED_PAYMENT_METHOD in types, 1)
  }

  function CompositeEdge(u1: UserNode, u2: UserNode, types: seq<string>, now: Time): Edge {
    Edge(UserRef(u1.id), UserRef(u2.id), COMPOSITE,
         map["strength" := Num((Strength(types) as real) / 10.0),
             "relationship_types" := StrList(types),
             "created_at" := Clock(now)])
  }

  /** Rows `(u1, u2)` with at least two distinct relationship types u1 -> u2, aggregated before any MERGE. */
  function CompositePatterns(edges: seq<Edge>, now: Time): (UserNode, UserNode) -> seq<Edge> {
    (u1: UserNode, u2: UserNode) =>
      var types := TypesBetween(edges, UserRef(u1.id), UserRef(u2.id));
      if |types| >= 2 then [CompositeEdge(u1, u2, types, now)] else []
  }

  function CompositeCandidates(edges: seq<Edge>, users: seq<UserNode>, now: Time): seq<Edge> {
    Pairs(users, users, CompositePatterns(edges, now))
  }

  function CompositePass(edges: seq<Edge>, users: seq<UserNode>, now: Time): seq<Edge> {
    MergeAll(edges, CompositeCandidates(edges, users, now), true)
  }

  predicate IsCompositeEdge(edges: seq<Edge>, users: seq<UserNode>, now: Time, e: Edge) {
    exists i, j | 0 <= i < |users| && 0 <= j < |users| ::
      var types := TypesBetween(edges, UserRef(users[i].id), UserRef(users[j].id));
      |types| >= 2 && e == CompositeEdge(users[i], users[j], types, now)
  }

  lemma CompositeCandidatesMember(edges: seq<Edge>, users: seq<UserNode>, now: Time, e: Edge)
    ensures e in CompositeCandidates(edges, users, now) <==> IsCompositeEdge(edges, users, now, e)
  {
    PairsMember(users, users, CompositePatterns(edges, now), e);
  }

  // ---------------------------------------------------------------------
  // The whole run
  // ---------------------------------------------------------------------

  /** The eight passes that precede the shareholder pass, each a single MERGE query. */
  datatype Pass =
    | SharedAttributePass(attribute: Attribute)
    | PaymentMethodPass
    | LinkedPass(fingerprint: Fingerprint)
    | ParentChildPass
    | DirectorPass

  const PASS_COUNT := 8

  /** The k-th pass (from 0) in the order detect_and_create_relationships runs them. */
  const PASSES: seq<Pass> := [SharedAttributePass(Email), SharedAttributePass(Phone), SharedAttributePass(Address), PaymentMethodPass,
                               LinkedPass(SharedIp), LinkedPass(SharedDevice), ParentChildPass, DirectorPass]

  function PassAt(k: nat): Pass
    requires k < PASS_COUNT
  {
    PASSES[k]
  }

  /** Unfolding helper: the entries of PASSES, for the method that calls the detectors one by one. */
  lemma PassOrder()
    ensures PassAt(0) == SharedAttributePass(Email) && PassAt(1) == SharedAttributePass(Phone)
    ensures PassAt(2) == SharedAttributePass(Address) && PassAt(3) == PaymentMethodPass
    ensures PassAt(4) == LinkedPass(SharedIp) && PassAt(5) == LinkedPass(SharedDevice)
    ensures PassAt(6) == ParentChildPass && PassAt(7) == DirectorPass
  {
  }

  /** The MERGE patterns of a pass; they depend on the nodes only, never on the relationships. */
  function PassWants(users: seq<UserNode>, txs: seq<TransactionNode>, p: Pass, now: Time): seq<Edge> {
    match p
    case SharedAttributePass(a) => SharedCandidates(users, a)
    case PaymentMethodPass => PaymentCandidates(users)
    case LinkedPass(f) => LinkCandidates(txs, f)
    case ParentChildPass => ParentCandidates(users, now)
    case DirectorPass => DirectorCandidates(users, now)
  }

  /** Only the LINKED_TO pattern is undirected. */
  function Directed(p: Pass): bool {
    !p.LinkedPass?
  }

  function ApplyPass(edges: seq<Edge>, users: seq<UserNode>, txs: seq<TransactionNode>, p: Pass, now: Time): seq<Edge> {
    MergeAll(edges, PassWants(users, txs, p, now), Directed(p))
  }

  /** The relationships after the first k passes. */
  function AfterFirst(g: Graph, now: Time, k: nat): seq<Edge>
    requires k <= PASS_COUNT
  {
    if k == 0 then g.edges
    else ApplyPass(AfterFirst(g, now, k - 1), g.users, g.transactions, PassAt(k - 1), now)
  }

  /** The relationships after the eight MERGE passes. */
  function AfterPasses(g: Graph, now: Time): seq<Edge> {
    AfterFirst(g, now, PASS_COUNT)
  }

  /** The relationships after the shareholder pass, as far as it got. */
  function AfterShareholders(g: Graph, now: Time, clocks: Clocks): seq<Edge> {
    ShareholderPass(AfterPasses(g, now), g.users, clocks)
  }

  datatype Run = Run(graph: Graph, completed: bool)

  /**
   * detect_and_create_relationships: the passes in their fixed order,
   * composite last; an exception in the shareholder pass ends the run
   * with the relationships merged so far. `now` is the clock of the
   * single-statement passes, `clocks` those of the shareholder statements.
   */
  function RunInference(g: Graph, now: Time, clocks: Clocks): Run {
    var e9 := AfterShareholders(g, now, clocks);
    if ShareholderWants(g.users, clocks).failed then Run(g.(edges := e9), false)
    else Run(g.(edges := CompositePass(e9, g.users, now)), true)
  }
}
