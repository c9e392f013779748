/**
 * The property graph the inference engine and the analytics work over:
 * User and Transaction nodes, typed relationships with property maps,
 * and the storage engine's MERGE primitive ("insert unless an equal
 * relationship is already there") as a function on the relationship
 * sequence.
 */
module Graph {

  datatype Option<T> = None | Some(value: T)

  /** A reading of the database clock, as Cypher's `datetime()` returns it. */
  type Time = int

  /** Property values stored on relationships. */
  datatype Value =
    | Str(text: string)
    | Num(number: real)
    | StrList(items: seq<string>)
    | Clock(time: Time)

  /** A property map; a property whose value is null is simply absent. */
  type Props = map<string, Value>

  /** A node is identified by its label and its `id` property. */
  datatype NodeRef = UserRef(id: string) | TxRef(id: string)

  /** A stored relationship (source, target, type, properties). */
  datatype Edge = Edge(src: NodeRef, tgt: NodeRef, relType: string, props: Props)

  /** A User node as stored by create_user; shareholders are kept as text. */
  datatype UserNode = UserNode(
    id: string,
    name: string,
    email: Option<string>,
    phone: Option<string>,
    address: Option<string>,
    paymentMethods: Option<seq<string>>,
    entityType: Option<string>,
    directors: Option<seq<string>>,
    shareholders: Option<string>,
    parentEntityId: Option<string>)

  /** A Transaction node; amount, currency, timestamp, status and metadata are opaque here. */
  datatype TransactionNode = TransactionNode(id: string, ipAddress: Option<string>, deviceId: Option<string>)

  /** The whole store: nodes in creation order and relationships in creation order. */
  datatype Graph = Graph(users: seq<UserNode>, transactions: seq<TransactionNode>, edges: seq<Edge>)

  const SENT := "SENT"
  const RECEIVED_BY := "RECEIVED_BY"
  const SHARED_EMAIL := "SHARED_EMAIL"
  const SHARED_PHONE := "SHARED_PHONE"
  const SHARED_ADDRESS := "SHARED_ADDRESS"
  const SHARED_PAYMENT_METHOD := "SHARED_PAYMENT_METHOD"
  const LINKED_TO := "LINKED_TO"
  const PARENT_OF := "PARENT_OF"
  const SUBSIDIARY_OF := "SUBSIDIARY_OF"
  const DIRECTOR_OF := "DIRECTOR_OF"
  const SHAREHOLDER_OF := "SHAREHOLDER_OF"
  const COMPOSITE := "COMPOSITE"

  predicate HasUser(users: seq<UserNode>, id: string) {
    exists i | 0 <= i < |users| :: users[i].id == id
  }

  predicate HasTransaction(txs: seq<TransactionNode>, id: string) {
    exists i | 0 <= i < |txs| :: txs[i].id == id
  }

  /** The uniqueness constraints on User.id and Transaction.id. */
  predicate UniqueUserIds(users: seq<UserNode>) {
    forall i, j | 0 <= i < |users| && 0 <= j < |users| && users[i].id == users[j].id :: i == j
  }

  predicate UniqueTransactionIds(txs: seq<TransactionNode>) {
    forall i, j | 0 <= i < |txs| && 0 <= j < |txs| && txs[i].id == txs[j].id :: i == j
  }

  predicate HasNode(g: Graph, n: NodeRef) {
    match n
    case UserRef(id) => HasUser(g.users, id)
    case TxRef(id) => HasTransaction(g.transactions, id)
  }

  // ---------------------------------------------------------------------
  // MERGE
  // ---------------------------------------------------------------------

  /** Every property the pattern names is present on the relationship with the same value. */
  predicate PropsWithin(want: Props, have: Props) {
    forall k | k in want :: k in have && have[k] == want[k]
  }

  /**
   * `e` satisfies the MERGE pattern `want`: same type, the pattern's
   * properties, and the same endpoints (in either orientation when the
   * pattern is undirected).
   */
  predicate Matches(e: Edge, want: Edge, directed: bool) {
    && e.relType == want.relType
    && PropsWithin(want.props, e.props)
    && ((e.src == want.src && e.tgt == want.tgt) || (!directed && e.src == want.tgt && e.tgt == want.src))
  }

  predicate Present(edges: seq<Edge>, want: Edge, directed: bool) {
    exists i | 0 <= i < |edges| :: Matches(edges[i], want, directed)
  }

  /** MERGE of one relationship pattern: nothing changes when a match exists, otherwise it is created. */
  function Merge(edges: seq<Edge>, want: Edge, directed: bool): (r: seq<Edge>)
    ensures Present(r, want, directed)
    ensures Present(edges, want, directed) ==> r == edges
    ensures !Present(edges, want, directed) ==> r == edges + [want]
  {
    if Present(edges, want, directed) then edges
    else
      assert Matches((edges + [want])[|edges|], want, directed);
      edges + [want]
  }

  lemma PresentGrows(edges: seq<Edge>, more: seq<Edge>, want: Edge, directed: bool)
    requires Present(edges, want, directed)
    ensures Present(edges + more, want, directed)
  {
    var i :| 0 <= i < |edges| && Matches(edges[i], want, directed);
    assert (edges + more)[i] == edges[i];
  }

  /** The MERGE clause of one query applied to its rows in order. */
  function MergeAll(edges: seq<Edge>, wants: seq<Edge>, directed: bool): seq<Edge>
    decreases |wants|
  {
    if wants == [] then edges
    else MergeAll(Merge(edges, wants[0], directed), wants[1..], directed)
  }

  /**
   * What MERGE over a list of rows guarantees: the relationships already
   * there are kept in place, every row's pattern has a match afterwards,
   * and each relationship created is one of the rows' patterns that had
   * no match when it was created.
   */
  lemma {:induction false} MergeAllSpec(edges: seq<Edge>, wants: seq<Edge>, directed: bool)
    ensures var r := MergeAll(edges, wants, directed);
      && |edges| <= |r| && r[..|edges|] == edges
      && (forall w | w in wants :: Present(r, w, directed))
      && (forall k | |edges| <= k < |r| :: r[k] in wants && !Present(r[..k], r[k], directed))
    decreases |wants|
  {
    if wants != [] {
      var once := Merge(edges, wants[0], directed);
      MergeAllSpec(once, wants[1..], directed);
      MergeAllFirstRow(edges, wants, directed, MergeAll(once, wants[1..], directed));
    }
  }

  /** What MergeAll promises, given that it holds for the rows after the first. */
  lemma MergeAllFirstRow(edges: seq<Edge>, wants: seq<Edge>, directed: bool, r: seq<Edge>)
    requires wants != []
    requires var once := Merge(edges, wants[0], directed);
      && |once| <= |r| && r[..|once|] == once
      && (forall w | w in wants[1..] :: Present(r, w, directed))
      && (forall k | |once| <= k < |r| :: r[k] in wants[1..] && !Present(r[..k], r[k], directed))
    ensures |edges| <= |r| && r[..|edges|] == edges
    ensures forall w | w in wants :: Present(r, w, directed)
    ensures forall k | |edges| <= k < |r| :: r[k] in wants && !Present(r[..k], r[k], directed)
  {
    var once := Merge(edges, wants[0], directed);
    assert r == once + r[|once|..];
    PresentGrows(once, r[|once|..], wants[0], directed);
    assert forall w | w in wants[1..] :: w in wants;
    assert forall w | w in wants :: w == wants[0] || w in wants[1..];
    assert |once| > |edges| ==> r[|edges|] == wants[0] && r[..|edges|] == edges;
  }

  /** Re-running MERGE rows whose patterns all have a match already changes nothing. */
  lemma {:induction false} MergeAllPresent(edges: seq<Edge>, wants: seq<Edge>, directed: bool)
    requires forall w | w in wants :: Present(edges, w, directed)
    ensures MergeAll(edges, wants, directed) == edges
    decreases |wants|
  {
    if wants != [] {
      assert wants[0] in wants;
      assert forall w | w in wants[1..] :: w in wants;
      MergeAllPresent(edges, wants[1..], directed);
    }
  }

  /** MERGE is idempotent: the same rows merged twice give what merging them once gives. */
  lemma MergeAllIdempotent(edges: seq<Edge>, wants: seq<Edge>, directed: bool)
    ensures MergeAll(MergeAll(edges, wants, directed), wants, directed) == MergeAll(edges, wants, directed)
  {
    MergeAllSpec(edges, wants, directed);
    MergeAllPresent(MergeAll(edges, wants, directed), wants, directed);
  }

  /** Merging two row lists one after the other is merging their concatenation. */
  lemma {:induction false} MergeAllAppend(edges: seq<Edge>, a: seq<Edge>, b: seq<Edge>, directed: bool)
    ensures MergeAll(MergeAll(edges, a, directed), b, directed) == MergeAll(edges, a + b, directed)
    decreases |a|
  {
    if a != [] {
      assert (a + b)[0] == a[0];
      assert (a + b)[1..] == a[1..] + b;
      MergeAllAppend(Merge(edges, a[0], directed), a[1..], b, directed);
    } else {
      assert a + b == b;
    }
  }

  /** A pattern that had a match keeps it whatever is appended later. */
  lemma PresentInExtension(edges: seq<Edge>, bigger: seq<Edge>, want: Edge, directed: bool)
    requires |edges| <= |bigger| && bigger[..|edges|] == edges
    requires Present(edges, want, directed)
    ensures Present(bigger, want, directed)
  {
    var i :| 0 <= i < |edges| && Matches(edges[i], want, directed);
    assert bigger[i] == edges[i];
  }

  // ---------------------------------------------------------------------
  // Rows of a two-variable MATCH over a cartesian product
  // ---------------------------------------------------------------------

  /** The rows `MATCH (a), (b)` produce for a fixed `a`, each mapped to its MERGE patterns. */
  function Row<T>(x: T, ys: seq<T>, patterns: (T, T) -> seq<Edge>): seq<Edge>
  {
    if ys == [] then [] else patterns(x, ys[0]) + Row(x, ys[1..], patterns)
  }

  /** All rows of `MATCH (a), (b)`, outer variable first, each mapped to its MERGE patterns. */
  function Pairs<T>(xs: seq<T>, ys: seq<T>, patterns: (T, T) -> seq<Edge>): seq<Edge>
  {
    if xs == [] then [] else Row(xs[0], ys, patterns) + Pairs(xs[1..], ys, patterns)
  }

  lemma {:induction false} RowMember<T>(x: T, ys: seq<T>, patterns: (T, T) -> seq<Edge>, e: Edge)
    ensures e in Row(x, ys, patterns) <==> exists j | 0 <= j < |ys| :: e in patterns(x, ys[j])
    decreases |ys|
  {
    if ys != [] {
      RowMember(x, ys[1..], patterns, e);
      if e in Row(x, ys[1..], patterns) {
        var j :| 0 <= j < |ys[1..]| && e in patterns(x, ys[1..][j]);
        assert e in patterns(x, ys[j + 1]);
      }
      if exists j | 0 <= j < |ys| :: e in patterns(x, ys[j]) {
        var j :| 0 <= j < |ys| && e in patterns(x, ys[j]);
        if j > 0 {
          assert e in patterns(x, ys[1..][j - 1]);
        }
      }
    }
  }

  /** An edge is among the patterns of the cartesian product exactly when some pair produced it. */
  lemma {:induction false} PairsMember<T>(xs: seq<T>, ys: seq<T>, patterns: (T, T) -> seq<Edge>, e: Edge)
    ensures e in Pairs(xs, ys, patterns) <==>
            exists i, j | 0 <= i < |xs| && 0 <= j < |ys| :: e in patterns(xs[i], ys[j])
    decreases |xs|
  {
    if xs != [] {
      PairsMember(xs[1..], ys, patterns, e);
      RowMember(xs[0], ys, patterns, e);
      if e in Pairs(xs[1..], ys, patterns) {
        var i, j :| 0 <= i < |xs[1..]| && 0 <= j < |ys| && e in patterns(xs[1..][i], ys[j]);
        assert e in patterns(xs[i + 1], ys[j]);
      }
      if exists i, j | 0 <= i < |xs| && 0 <= j < |ys| :: e in patterns(xs[i], ys[j]) {
        var i, j :| 0 <= i < |xs| && 0 <= j < |ys| && e in patterns(xs[i], ys[j]);
        if i > 0 {
          assert e in patterns(xs[1..][i - 1], ys[j]);
        }
      }
    }
  }
}
