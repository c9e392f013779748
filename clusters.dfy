/**
 * cluster_transactions: every transaction with enough other transactions
 * within `maxDistance` undirected hops becomes the center of a cluster,
 * unless an earlier cluster already took it as a center or a member.
 *
 * The query's rows are `Records`; the loop that turns them into clusters
 * is the method `ClusterTransactions`, specified by the function `Form`.
 */
module Clusters {
  import opened Graph
  import opened Paths

  /** Transaction `b` lies within `d` undirected hops of transaction `a`, over relationships of any type. */
  predicate Near(g: Graph, a: string, b: string, d: nat) {
    TxRef(b) in Ball(g.edges, None, TxRef(a), d)
  }

  /** Near, for two different transactions, is "joined by a path of 1 to `d` hops". */
  lemma NearIsPath(g: Graph, a: string, b: string, d: nat)
    requires a != b
    ensures Near(g, a, b, d) <==> exists w :: IsWalk(g.edges, None, w, TxRef(a), TxRef(b)) && 1 <= |w.rels| <= d
  {
    BallIsReach(g.edges, None, TxRef(a), TxRef(b), d);
  }

  /** The ids the subquery collects for `t1`: transactions of `txs` other than `t1` and near it, in node order. */
  function Connected(g: Graph, t1: string, txs: seq<TransactionNode>, d: nat): seq<string> {
    if txs == [] then []
    else (if txs[0].id != t1 && Near(g, t1, txs[0].id, d) then [txs[0].id] else []) + Connected(g, t1, txs[1..], d)
  }

  lemma {:induction false} ConnectedSpec(g: Graph, t1: string, txs: seq<TransactionNode>, d: nat)
    ensures forall id :: id in Connected(g, t1, txs, d) <==> id != t1 && HasTransaction(txs, id) && Near(g, t1, id, d)
    ensures UniqueTransactionIds(txs) ==>
      forall i, j | 0 <= i < j < |Connected(g, t1, txs, d)| :: Connected(g, t1, txs, d)[i] != Connected(g, t1, txs, d)[j]
  {
    if txs != [] {
      var rest := Connected(g, t1, txs[1..], d);
      ConnectedSpec(g, t1, txs[1..], d);
      forall id ensures HasTransaction(txs, id) <==> id == txs[0].id || HasTransaction(txs[1..], id) {
        if HasTransaction(txs, id) && id != txs[0].id {
          var k :| 0 <= k < |txs| && txs[k].id == id;
          assert txs[1..][k - 1].id == id;
        }
        if HasTransaction(txs[1..], id) {
          var k :| 0 <= k < |txs| - 1 && txs[1..][k].id == id;
          assert txs[k + 1].id == id;
        }
      }
      if UniqueTransactionIds(txs) {
        assert UniqueTransactionIds(txs[1..]) by {
          forall i, j | 0 <= i < |txs| - 1 && 0 <= j < |txs| - 1 && txs[1..][i].id == txs[1..][j].id
            ensures i == j
          {
            assert txs[i + 1].id == txs[j + 1].id;
          }
        }
        forall k | 0 <= k < |txs| - 1
          ensures txs[1..][k].id != txs[0].id
        {
          assert txs[1..][k] == txs[k + 1];
        }
      }
    }
  }

  /** One row of the clustering query. */
  datatype Record = Record(center: string, connected: seq<string>)

  /**
   * The query's rows, in node order: a transaction of `txs` yields a row only
   * when it has connected transactions (a subquery without rows drops it) and
   * at least `minClusterSize - 1` of them.
   */
  function Records(g: Graph, txs: seq<TransactionNode>, minClusterSize: int, d: nat): seq<Record> {
    if txs == [] then []
    else
      var c := Connected(g, txs[0].id, g.transactions, d);
      (if |c| > 0 && |c| >= minClusterSize - 1 then [Record(txs[0].id, c)] else []) +
      Records(g, txs[1..], minClusterSize, d)
  }

  lemma {:induction false} RecordsSpec(g: Graph, txs: seq<TransactionNode>, minClusterSize: int, d: nat, rec: Record)
    requires rec in Records(g, txs, minClusterSize, d)
    ensures HasTransaction(txs, rec.center)
    ensures rec.connected == Connected(g, rec.center, g.transactions, d)
    ensures |rec.connected| > 0 && |rec.connected| >= minClusterSize - 1
  {
    var c := Connected(g, txs[0].id, g.transactions, d);
    if rec != Record(txs[0].id, c) || !(|c| > 0 && |c| >= minClusterSize - 1) {
      RecordsSpec(g, txs[1..], minClusterSize, d, rec);
      var k :| 0 <= k < |txs| - 1 && txs[1..][k].id == rec.center;
      assert txs[k + 1].id == rec.center;
    } else {
      assert txs[0].id == rec.center;
    }
  }

  /** A cluster as returned: its center, the center followed by its connected transactions, and the size. */
  datatype Cluster = Cluster(center: string, transactions: seq<string>, size: nat)

  function Elems(s: seq<string>): set<string> {
    set x | x in s
  }

  function ClusterOf(rec: Record): Cluster {
    Cluster(rec.center, [rec.center] + rec.connected, 1 + |rec.connected|)
  }

  /** The clusters the loop builds from `records` when the ids in `processed` are taken already. */
  function Form(records: seq<Record>, processed: set<string>): seq<Cluster> {
    if records == [] then []
    else if records[0].center in processed then Form(records[1..], processed)
    else
      [ClusterOf(records[0])] +
      Form(records[1..], processed + Elems(records[0].connected) + {records[0].center})
  }

  /** Turns the query's rows into clusters, skipping rows whose transaction is already taken. */
  method ClusterTransactions(g: Graph, minClusterSize: int, maxDistance: nat) returns (clusters: seq<Cluster>)
    ensures clusters == Form(Records(g, g.transactions, minClusterSize, maxDistance), {})
  {
    var records := Records(g, g.transactions, minClusterSize, maxDistance);
    clusters := [];
    var processed: set<string> := {};
    for i := 0 to |records|
      invariant clusters + Form(records[i..], processed) == Form(records, {})
    {
      var rec := records[i];
      assert records[i..][1..] == records[i + 1..];
      if rec.center in processed {
        continue;
      }
      var members := [rec.center];
      ghost var before := processed;
      for j := 0 to |rec.connected|
        invariant members == [rec.center] + rec.connected[..j]
        invariant processed == before + Elems(rec.connected[..j])
      {
        assert rec.connected[..j + 1] == rec.connected[..j] + [rec.connected[j]];
        members := members + [rec.connected[j]];
        processed := processed + {rec.connected[j]};
      }
      assert rec.connected[..|rec.connected|] == rec.connected;
      processed := processed + {rec.center};
      clusters := clusters + [Cluster(rec.center, members, 1 + |rec.connected|)];
    }
  }

  // ---------------------------------------------------------------------
  // Properties
  // ---------------------------------------------------------------------

  lemma {:induction false} FormFrom(records: seq<Record>, processed: set<string>, c: Cluster)
    requires c in Form(records, processed)
    ensures exists rec | rec in records :: c == ClusterOf(rec)
  {
    if records[0].center in processed {
      FormFrom(records[1..], processed, c);
    } else if c != ClusterOf(records[0]) {
      FormFrom(records[1..], processed + Elems(records[0].connected) + {records[0].center}, c);
    } else {
      assert records[0] in records;
    }
  }

  /** The query row a cluster was formed from. */
  lemma ClusterRow(g: Graph, minClusterSize: int, maxDistance: nat, c: Cluster) returns (rec: Record)
    requires c in Form(Records(g, g.transactions, minClusterSize, maxDistance), {})
    ensures rec in Records(g, g.transactions, minClusterSize, maxDistance) && c == ClusterOf(rec)
  {
    FormFrom(Records(g, g.transactions, minClusterSize, maxDistance), {}, c);
    rec :| rec in Records(g, g.transactions, minClusterSize, maxDistance) && c == ClusterOf(rec);
  }

  /** Each cluster lists its center first, and its size counts all its transactions and reaches `minClusterSize`. */
  lemma ClusterSize(g: Graph, minClusterSize: int, maxDistance: nat, c: Cluster)
    requires c in Form(Records(g, g.transactions, minClusterSize, maxDistance), {})
    ensures c.size == |c.transactions| && c.size >= minClusterSize && c.size >= 2
    ensures c.transactions[0] == c.center && HasTransaction(g.transactions, c.center)
  {
    var rec := ClusterRow(g, minClusterSize, maxDistance, c);
    RecordsSpec(g, g.transactions, minClusterSize, maxDistance, rec);
  }

  /**
   * After the center, a cluster lists other transactions within
   * `maxDistance` hops of it, none twice.
   */
  lemma ClusterMembers(g: Graph, minClusterSize: int, maxDistance: nat, c: Cluster)
    requires c in Form(Records(g, g.transactions, minClusterSize, maxDistance), {})
    ensures |c.transactions| >= 1
    ensures forall k | 1 <= k < |c.transactions| ::
      c.transactions[k] != c.center && HasTransaction(g.transactions, c.transactions[k])
      && Near(g, c.center, c.transactions[k], maxDistance)
    ensures UniqueTransactionIds(g.transactions) ==>
      forall i, j | 0 <= i < j < |c.transactions| :: c.transactions[i] != c.transactions[j]
  {
    var rec := ClusterRow(g, minClusterSize, maxDistance, c);
    RecordsSpec(g, g.transactions, minClusterSize, maxDistance, rec);
    ConnectedSpec(g, rec.center, g.transactions, maxDistance);
    assert forall k | 1 <= k < |c.transactions| :: c.transactions[k] == rec.connected[k - 1];
    assert forall k | 1 <= k < |c.transactions| :: c.transactions[k] in rec.connected;
  }

  /**
   * No cluster's center was taken before: not in `processed`, and not the
   * center or a member of any earlier cluster.
   */
  lemma {:induction false} CentersFresh(records: seq<Record>, processed: set<string>)
    ensures forall k | 0 <= k < |Form(records, processed)| :: Form(records, processed)[k].center !in processed
    ensures forall i, j | 0 <= i < j < |Form(records, processed)| ::
      Form(records, processed)[j].center !in Form(records, processed)[i].transactions
  {
    if records != [] {
      if records[0].center in processed {
        CentersFresh(records[1..], processed);
      } else {
        var rec := records[0];
        var after := processed + Elems(rec.connected) + {rec.center};
        var rest := Form(records[1..], after);
        CentersFresh(records[1..], after);
        var all := Form(records, processed);
        assert all == [ClusterOf(rec)] + rest;
        assert forall x | x in ClusterOf(rec).transactions :: x in after;
        forall i, j | 0 <= i < j < |all|
          ensures all[j].center !in all[i].transactions
        {
          assert all[j] == rest[j - 1];
          if i > 0 {
            assert all[i] == rest[i - 1];
          }
        }
      }
    }
  }

  /** Every row's transaction is taken beforehand or listed in some cluster, as center or member. */
  lemma {:induction false} FormCovers(records: seq<Record>, processed: set<string>, rec: Record)
    requires rec in records
    ensures rec.center in processed || exists c | c in Form(records, processed) :: rec.center in c.transactions
    decreases |records|
  {
    var first := records[0];
    if rec != first {
      assert rec in records[1..];
    }
    if first.center in processed {
      if rec != first {
        FormCovers(records[1..], processed, rec);
      }
    } else {
      var after := processed + Elems(first.connected) + {first.center};
      var head := ClusterOf(first);
      assert Form(records, processed) == [head] + Form(records[1..], after);
      assert head in Form(records, processed);
      if rec == first {
        assert rec.center in head.transactions;
      } else {
        FormCovers(records[1..], after, rec);
        if rec.center in after && rec.center !in processed {
          assert rec.center in head.transactions;
        }
      }
    }
  }

  /** A transaction whose subquery finds enough connected transactions yields a row. */
  lemma {:induction false} RecordsHas(g: Graph, txs: seq<TransactionNode>, minClusterSize: int, d: nat, t: TransactionNode)
    requires t in txs
    requires var c := Connected(g, t.id, g.transactions, d); |c| > 0 && |c| >= minClusterSize - 1
    ensures Record(t.id, Connected(g, t.id, g.transactions, d)) in Records(g, txs, minClusterSize, d)
    decreases |txs|
  {
    if txs[0] != t {
      assert t in txs[1..];
      RecordsHas(g, txs[1..], minClusterSize, d, t);
    }
  }

  /**
   * Every transaction with at least one and at least `minClusterSize - 1`
   * transactions within `maxDistance` hops ends up in some cluster, as its
   * center or as a member.
   */
  lemma QualifyingClustered(g: Graph, minClusterSize: int, maxDistance: nat, t: TransactionNode)
    requires t in g.transactions
    requires var c := Connected(g, t.id, g.transactions, maxDistance); |c| > 0 && |c| >= minClusterSize - 1
    ensures exists cl | cl in Form(Records(g, g.transactions, minClusterSize, maxDistance), {}) :: t.id in cl.transactions
  {
    RecordsHas(g, g.transactions, minClusterSize, maxDistance, t);
    FormCovers(Records(g, g.transactions, minClusterSize, maxDistance), {},
               Record(t.id, Connected(g, t.id, g.transactions, maxDistance)));
  }

  /** Once every row's transaction is taken, no further cluster is formed. */
  lemma {:induction false} FormAllTaken(records: seq<Record>, processed: set<string>)
    requires forall rec | rec in records :: rec.center in processed
    ensures Form(records, processed) == []
  {
    if records != [] {
      FormAllTaken(records[1..], processed);
    }
  }

  /** `Connected` keeps every transaction of `txs` when all are near `t1` and none is `t1`. */
  lemma {:induction false} ConnectedKeepsAll(g: Graph, t1: string, txs: seq<TransactionNode>, d: nat)
    requires forall k | 0 <= k < |txs| :: txs[k].id != t1 && Near(g, t1, txs[k].id, d)
    ensures |Connected(g, t1, txs, d)| == |txs|
  {
    if txs != [] {
      ConnectedKeepsAll(g, t1, txs[1..], d);
    }
  }

  /**
   * When every two transactions lie within `maxDistance` hops of each other,
   * the first transaction's cluster takes all of them and is the only one.
   */
  lemma OneClusterWhenAllNear(g: Graph, minClusterSize: int, maxDistance: nat)
    requires UniqueTransactionIds(g.transactions) && |g.transactions| >= 2
    requires minClusterSize <= |g.transactions|
    requires forall i, j | 0 <= i < |g.transactions| && 0 <= j < |g.transactions| && i != j ::
      Near(g, g.transactions[i].id, g.transactions[j].id, maxDistance)
    ensures |Form(Records(g, g.transactions, minClusterSize, maxDistance), {})| == 1
    ensures Form(Records(g, g.transactions, minClusterSize, maxDistance), {})[0].size == |g.transactions|
  {
    var txs := g.transactions;
    var t0 := txs[0].id;
    var c := Connected(g, t0, txs, maxDistance);
    assert forall k | 0 <= k < |txs| - 1 :: txs[1..][k] == txs[k + 1];
    ConnectedKeepsAll(g, t0, txs[1..], maxDistance);
    assert c == Connected(g, t0, txs[1..], maxDistance);
    var rec := Record(t0, c);
    var rest := Records(g, txs[1..], minClusterSize, maxDistance);
    assert Records(g, txs, minClusterSize, maxDistance) == [rec] + rest;
    var after := {} + Elems(c) + {t0};
    ConnectedSpec(g, t0, txs, maxDistance);
    forall r | r in rest
      ensures r.center in after
    {
      RecordsSpec(g, txs[1..], minClusterSize, maxDistance, r);
      var k :| 0 <= k < |txs| - 1 && txs[1..][k].id == r.center;
      assert txs[k + 1].id == r.center && txs[k + 1].id != t0;
      assert HasTransaction(txs, r.center);
      assert r.center in c;
    }
    FormAllTaken(rest, after);
    assert ([rec] + rest)[1..] == rest;
  }
}
