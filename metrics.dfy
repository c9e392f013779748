/**
 * get_graph_metrics: node and relationship counts, the number of times the
 * undirected pattern `()-[r]-()` meets each relationship type, and the five
 * nodes with the most incident relationships.
 */
module Metrics {
  import opened Graph

  // ---------------------------------------------------------------------
  // Counts
  // ---------------------------------------------------------------------

  /** Users whose entity_type is 'company'. */
  function CompanyCount(users: seq<UserNode>): nat {
    if users == [] then 0
    else (if users[0].entityType == Some("company") then 1 else 0) + CompanyCount(users[1..])
  }

  lemma {:induction false} CompanyCountBound(users: seq<UserNode>)
    ensures CompanyCount(users) <= |users|
    ensures CompanyCount(users) == |users| <==> forall i | 0 <= i < |users| :: users[i].entityType == Some("company")
  {
    if users != [] {
      CompanyCountBound(users[1..]);
      assert forall i | 1 <= i < |users| :: users[i] == users[1..][i - 1];
    }
  }

  /** Relationships of type `t`. */
  function CountType(edges: seq<Edge>, t: string): nat {
    if edges == [] then 0 else (if edges[0].relType == t then 1 else 0) + CountType(edges[1..], t)
  }

  /** Relationships of type `t` from a node to itself. */
  function CountLoops(edges: seq<Edge>, t: string): nat {
    if edges == [] then 0
    else (if edges[0].relType == t && edges[0].src == edges[0].tgt then 1 else 0) + CountLoops(edges[1..], t)
  }

  /**
   * The rows `MATCH ()-[r]-()` produces for type `t`: a relationship is met
   * once from each end, a relationship from a node to itself once.
   */
  function UndirectedCount(edges: seq<Edge>, t: string): nat {
    if edges == [] then 0
    else
      (if edges[0].relType != t then 0 else if edges[0].src == edges[0].tgt then 1 else 2) +
      UndirectedCount(edges[1..], t)
  }

  lemma {:induction false} UndirectedCountSpec(edges: seq<Edge>, t: string)
    ensures CountLoops(edges, t) <= CountType(edges, t)
    ensures UndirectedCount(edges, t) == 2 * CountType(edges, t) - CountLoops(edges, t)
  {
    if edges != [] {
      UndirectedCountSpec(edges[1..], t);
    }
  }

  lemma {:induction false} CountTypeSpec(edges: seq<Edge>, t: string)
    ensures CountType(edges, t) <= |edges|
    ensures CountType(edges, t) > 0 <==> exists e | e in edges :: e.relType == t
  {
    if edges != [] {
      CountTypeSpec(edges[1..], t);
      assert forall e | e in edges :: e == edges[0] || e in edges[1..];
    }
  }

  /** The relationship types present. */
  function TypesOf(edges: seq<Edge>): set<string> {
    set e | e in edges :: e.relType
  }

  /** The type-count map: one entry per type present. */
  function TypeCounts(edges: seq<Edge>): map<string, nat> {
    map t | t in TypesOf(edges) :: UndirectedCount(edges, t)
  }

  // ---------------------------------------------------------------------
  // Most connected nodes
  // ---------------------------------------------------------------------

  /** The relationships `OPTIONAL MATCH (n)-[r]-()` meets at `n`: each incident relationship once. */
  function Degree(edges: seq<Edge>, n: NodeRef): nat {
    if edges == [] then 0
    else (if edges[0].src == n || edges[0].tgt == n then 1 else 0) + Degree(edges[1..], n)
  }

  /** A node with its connection count. */
  datatype Entry = Entry(node: NodeRef, count: nat)

  function UserEntries(users: seq<UserNode>, edges: seq<Edge>): seq<Entry> {
    if users == [] then []
    else [Entry(UserRef(users[0].id), Degree(edges, UserRef(users[0].id)))] + UserEntries(users[1..], edges)
  }

  function TransactionEntries(txs: seq<TransactionNode>, edges: seq<Edge>): seq<Entry> {
    if txs == [] then []
    else [Entry(TxRef(txs[0].id), Degree(edges, TxRef(txs[0].id)))] + TransactionEntries(txs[1..], edges)
  }

  /** Every node with its connection count, users first. */
  function Entries(g: Graph): seq<Entry> {
    UserEntries(g.users, g.edges) + TransactionEntries(g.transactions, g.edges)
  }

  lemma {:induction false} UserEntriesSpec(users: seq<UserNode>, edges: seq<Edge>)
    ensures |UserEntries(users, edges)| == |users|
    ensures forall x | x in UserEntries(users, edges) :: x.count == Degree(edges, x.node) && x.node.UserRef? && HasUser(users, x.node.id)
  {
    if users != [] {
      UserEntriesSpec(users[1..], edges);
      forall x | x in UserEntries(users[1..], edges)
        ensures HasUser(users, x.node.id)
      {
        var k :| 0 <= k < |users| - 1 && users[1..][k].id == x.node.id;
        assert users[k + 1].id == x.node.id;
      }
    }
  }

  lemma {:induction false} TransactionEntriesSpec(txs: seq<TransactionNode>, edges: seq<Edge>)
    ensures |TransactionEntries(txs, edges)| == |txs|
    ensures forall x | x in TransactionEntries(txs, edges) :: x.count == Degree(edges, x.node) && x.node.TxRef? && HasTransaction(txs, x.node.id)
  {
    if txs != [] {
      TransactionEntriesSpec(txs[1..], edges);
      forall x | x in TransactionEntries(txs[1..], edges)
        ensures HasTransaction(txs, x.node.id)
      {
        var k :| 0 <= k < |txs| - 1 && txs[1..][k].id == x.node.id;
        assert txs[k + 1].id == x.node.id;
      }
    }
  }

  predicate NonIncreasing(xs: seq<Entry>) {
    forall i, j | 0 <= i < j < |xs| :: xs[i].count >= xs[j].count
  }

  /** Places `x` before the first entry whose count is not greater. */
  function Insert(x: Entry, xs: seq<Entry>): seq<Entry> {
    if xs == [] || xs[0].count <= x.count then [x] + xs
    else [xs[0]] + Insert(x, xs[1..])
  }

  lemma {:induction false} InsertKeeps(x: Entry, xs: seq<Entry>)
    ensures multiset(Insert(x, xs)) == multiset(xs) + multiset{x}
  {
    if xs != [] && xs[0].count > x.count {
      InsertKeeps(x, xs[1..]);
      assert xs == [xs[0]] + xs[1..];
    }
  }

  lemma {:induction false} InsertSorted(x: Entry, xs: seq<Entry>)
    requires NonIncreasing(xs)
    ensures NonIncreasing(Insert(x, xs))
  {
    if xs == [] || xs[0].count <= x.count {
      var r := [x] + xs;
      forall i, j | 0 <= i < j < |r| ensures r[i].count >= r[j].count {
        if i == 0 {
          assert r[j] == xs[j - 1];
        } else {
          assert r[i] == xs[i - 1] && r[j] == xs[j - 1];
        }
      }
    } else {
      InsertSorted(x, xs[1..]);
      InsertKeeps(x, xs[1..]);
      var tail := Insert(x, xs[1..]);
      var r := [xs[0]] + tail;
      forall i, j | 0 <= i < j < |r| ensures r[i].count >= r[j].count {
        assert r[j] == tail[j - 1];
        if i == 0 {
          assert tail[j - 1] in multiset(tail);
          HeadBounds(x, xs, tail[j - 1]);
        } else {
          assert r[i] == tail[i - 1];
        }
      }
    }
  }

  lemma HeadBounds(x: Entry, xs: seq<Entry>, y: Entry)
    requires NonIncreasing(xs) && xs != [] && xs[0].count > x.count
    requires y in multiset(xs[1..]) + multiset{x}
    ensures y.count <= xs[0].count
  {
    if y != x {
      assert y in xs[1..];
      var k :| 0 <= k < |xs| - 1 && xs[1..][k] == y;
      assert xs[k + 1] == y;
    }
  }

  /** `ORDER BY connection_count DESC`, modelled as an insertion sort. */
  function Rank(xs: seq<Entry>): seq<Entry> {
    if xs == [] then [] else Insert(xs[0], Rank(xs[1..]))
  }

  lemma {:induction false} RankSpec(xs: seq<Entry>)
    ensures NonIncreasing(Rank(xs))
    ensures multiset(Rank(xs)) == multiset(xs)
  {
    if xs != [] {
      RankSpec(xs[1..]);
      InsertSorted(xs[0], Rank(xs[1..]));
      InsertKeeps(xs[0], Rank(xs[1..]));
      assert xs == [xs[0]] + xs[1..];
    }
  }

  /** `LIMIT 5`. */
  const TOP := 5

  function TopEntries(g: Graph): seq<Entry> {
    var ranked := Rank(Entries(g));
    if |ranked| <= TOP then ranked else ranked[..TOP]
  }

  // ---------------------------------------------------------------------
  // The reported entries and the name fallback
  // ---------------------------------------------------------------------

  function UserName(users: seq<UserNode>, id: string): Option<string> {
    if users == [] then None
    else if users[0].id == id then Some(users[0].name)
    else UserName(users[1..], id)
  }

  /**
   * A row of the most-connected query: every column is present; `n.name`
   * is null for a Transaction, which has no name.
   */
  datatype Row = Row(nodeId: string, nodeName: Option<string>, nodeType: seq<string>, connectionCount: nat)

  function RowOf(g: Graph, x: Entry): Row {
    match x.node
    case UserRef(id) => Row(id, UserName(g.users, id), ["User"], x.count)
    case TxRef(id) => Row(id, None, ["Transaction"], x.count)
  }

  /** `record.get(key, default)`: the default only stands in for a column the row does not have. */
  function Get(present: bool, value: Option<string>, default: string): Option<string> {
    if present then value else Some(default)
  }

  /** A most-connected entry as the code computes the name: `get` on a column that is always present. */
  datatype RawSummary = RawSummary(id: string, name: Option<string>, nodeType: string, connectionCount: nat)

  function SummariseAsWritten(row: Row): RawSummary {
    RawSummary(row.nodeId, Get(true, row.nodeName, row.nodeId),
               if |row.nodeType| > 0 then row.nodeType[0] else "Unknown", row.connectionCount)
  }

  /** As written, a Transaction among the most connected nodes is reported with a null name, never its id. */
  lemma TransactionNameIsNull(g: Graph, id: string, count: nat)
    ensures SummariseAsWritten(RowOf(g, Entry(TxRef(id), count))).name == None
    ensures SummariseAsWritten(RowOf(g, Entry(TxRef(id), count))).name != Some(id)
  {
  }

  /** A most-connected entry with the evident intent: the name, or the id when the node has none. */
  datatype Summary = Summary(id: string, name: string, nodeType: string, connectionCount: nat)

  function Summarise(row: Row): Summary {
    Summary(row.nodeId, match row.nodeName { case Some(n) => n case None => row.nodeId },
            if |row.nodeType| > 0 then row.nodeType[0] else "Unknown", row.connectionCount)
  }

  lemma {:induction false} UserNameSpec(users: seq<UserNode>, id: string)
    ensures UserName(users, id).Some? <==> HasUser(users, id)
    ensures UniqueUserIds(users) ==> forall i | 0 <= i < |users| && users[i].id == id :: UserName(users, id) == Some(users[i].name)
  {
    if users != [] {
      UserNameSpec(users[1..], id);
      assert forall i | 1 <= i < |users| :: users[i] == users[1..][i - 1];
      if UniqueUserIds(users) {
        assert UniqueUserIds(users[1..]) by {
          forall i, j | 0 <= i < |users| - 1 && 0 <= j < |users| - 1 && users[1..][i].id == users[1..][j].id
            ensures i == j
          {
            assert users[i + 1].id == users[j + 1].id;
          }
        }
      }
    }
  }

  /** Corrected: a user is reported with its name, a transaction with its id; the label names its kind. */
  lemma SummaryName(g: Graph, x: Entry)
    requires UniqueUserIds(g.users)
    requires HasNode(g, x.node)
    ensures x.node.TxRef? ==> Summarise(RowOf(g, x)) == Summary(x.node.id, x.node.id, "Transaction", x.count)
    ensures forall i | 0 <= i < |g.users| && x.node == UserRef(g.users[i].id) ::
      Summarise(RowOf(g, x)) == Summary(g.users[i].id, g.users[i].name, "User", x.count)
  {
    UserNameSpec(g.users, x.node.id);
  }

  function Summaries(g: Graph, xs: seq<Entry>): (r: seq<Summary>)
    ensures |r| == |xs| && forall i | 0 <= i < |xs| :: r[i] == Summarise(RowOf(g, xs[i]))
  {
    if xs == [] then [] else [Summarise(RowOf(g, xs[0]))] + Summaries(g, xs[1..])
  }

  // ---------------------------------------------------------------------
  // The metrics
  // ---------------------------------------------------------------------

  datatype GraphMetrics = GraphMetrics(
    totalNodes: nat,
    userCount: nat,
    transactionCount: nat,
    companyCount: nat,
    relationshipCount: nat,
    relationshipTypeCounts: map<string, nat>,
    mostConnectedNodes: seq<Summary>)

  function GetGraphMetrics(g: Graph): GraphMetrics {
    GraphMetrics(
      |g.users| + |g.transactions|,
      |g.users|,
      |g.transactions|,
      CompanyCount(g.users),
      |g.edges|,
      TypeCounts(g.edges),
      Summaries(g, TopEntries(g)))
  }

  /** An empty graph reports zero everywhere, no types and no nodes. */
  lemma EmptyGraphMetrics(g: Graph)
    requires g.users == [] && g.transactions == [] && g.edges == []
    ensures GetGraphMetrics(g) == GraphMetrics(0, 0, 0, 0, 0, map[], [])
  {
    assert TypesOf(g.edges) == {};
  }

  /** Companies are users and users are nodes. */
  lemma CountsOrdered(g: Graph)
    ensures var m := GetGraphMetrics(g);
      m.companyCount <= m.userCount <= m.totalNodes
      && m.totalNodes == m.userCount + m.transactionCount
  {
    CompanyCountBound(g.users);
  }

  /**
   * relationship_count counts each relationship once; the per-type counts
   * count each relationship twice, except one from a node to itself.
   */
  lemma RelationshipCounts(g: Graph)
    ensures var m := GetGraphMetrics(g);
      && m.relationshipCount == |g.edges|
      && (forall t :: t in m.relationshipTypeCounts <==> exists e | e in g.edges :: e.relType == t)
      && (forall t | t in m.relationshipTypeCounts ::
            m.relationshipTypeCounts[t] == 2 * CountType(g.edges, t) - CountLoops(g.edges, t)
            && CountType(g.edges, t) <= m.relationshipTypeCounts[t] <= 2 * CountType(g.edges, t)
            && CountType(g.edges, t) <= m.relationshipCount)
  {
    var m := GetGraphMetrics(g);
    forall t
      ensures t in m.relationshipTypeCounts <==> exists e | e in g.edges :: e.relType == t
    {
      if exists e | e in g.edges :: e.relType == t {
        var e :| e in g.edges && e.relType == t;
        assert t in TypesOf(g.edges);
      }
    }
    forall t | t in m.relationshipTypeCounts
      ensures m.relationshipTypeCounts[t] == 2 * CountType(g.edges, t) - CountLoops(g.edges, t)
      ensures CountType(g.edges, t) <= m.relationshipTypeCounts[t] <= 2 * CountType(g.edges, t)
      ensures CountType(g.edges, t) <= m.relationshipCount
    {
      UndirectedCountSpec(g.edges, t);
      CountTypeSpec(g.edges, t);
      var e :| e in g.edges && e.relType == t;
    }
  }

  lemma EntriesSpec(g: Graph)
    ensures |Entries(g)| == |g.users| + |g.transactions|
    ensures forall x | x in Entries(g) :: x.count == Degree(g.edges, x.node) && HasNode(g, x.node)
  {
    UserEntriesSpec(g.users, g.edges);
    TransactionEntriesSpec(g.transactions, g.edges);
  }

  /** most_connected_nodes lists min(5, node count) nodes, in non-increasing order of connection count. */
  lemma MostConnectedOrder(g: Graph)
    ensures var top := TopEntries(g);
      && |top| <= TOP
      && |top| == (if |g.users| + |g.transactions| < TOP then |g.users| + |g.transactions| else TOP)
      && NonIncreasing(top)
      && (forall x | x in top :: x in Entries(g) && x.count == Degree(g.edges, x.node) && HasNode(g, x.node))
  {
    var entries := Entries(g);
    var ranked := Rank(entries);
    var top := TopEntries(g);
    RankSpec(entries);
    EntriesSpec(g);
    assert |ranked| == |multiset(ranked)| == |entries|;
    forall x | x in top
      ensures x in entries
    {
      assert x in ranked;
      assert x in multiset(ranked);
    }
  }

  /** No node left out of most_connected_nodes has more connections than any node listed. */
  lemma MostConnectedBeatsRest(g: Graph)
    ensures var top := TopEntries(g);
      forall x: Entry, y: Entry | x in multiset(Entries(g)) - multiset(top) && y in top :: x.count <= y.count
  {
    var entries := Entries(g);
    var ranked := Rank(entries);
    var top := TopEntries(g);
    RankSpec(entries);
    var rest := ranked[|top|..];
    assert ranked == top + rest;
    assert multiset(ranked) == multiset(top) + multiset(rest);
    forall x: Entry, y: Entry | x in multiset(entries) - multiset(top) && y in top
      ensures x.count <= y.count
    {
      assert x in multiset(rest);
      var j :| 0 <= j < |rest| && rest[j] == x;
      var i :| 0 <= i < |top| && top[i] == y;
      assert ranked[i] == y && ranked[|top| + j] == x;
    }
  }

  /** Each reported most-connected entry is the summary of the corresponding ranked node. */
  lemma MostConnectedReported(g: Graph)
    ensures var m := GetGraphMetrics(g);
      && |m.mostConnectedNodes| == |TopEntries(g)|
      && forall i | 0 <= i < |TopEntries(g)| ::
           m.mostConnectedNodes[i].id == TopEntries(g)[i].node.id
           && m.mostConnectedNodes[i].connectionCount == TopEntries(g)[i].count
           && m.mostConnectedNodes[i].nodeType == (if TopEntries(g)[i].node.UserRef? then "User" else "Transaction")
  {
  }
}
