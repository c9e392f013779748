/**
 * What the inference passes guarantee: each pass creates exactly the
 * relationships its rule describes and no duplicates, a rerun at the same
 * clock only adds composite relationships (and always adds some), a rerun
 * at a later clock duplicates the timestamped relationships, and the
 * shareholder pass reads back exactly what create_user stored.
 */
module InferenceProperties {
  import opened Graph
  import opened Shareholders
  import opened ShareholderRoundTrip
  import opened Inference

  predicate IsPrefix(a: seq<Edge>, b: seq<Edge>) {
    |a| <= |b| && b[..|a|] == a
  }

  lemma PrefixTransitive(a: seq<Edge>, b: seq<Edge>, c: seq<Edge>)
    requires IsPrefix(a, b) && IsPrefix(b, c)
    ensures IsPrefix(a, c)
  {
    assert c[..|a|] == c[..|b|][..|a|];
  }

  // ---------------------------------------------------------------------
  // Each pass creates exactly what its rule describes
  // ---------------------------------------------------------------------

  /** Every pair of distinct users sharing the attribute is linked, in both directions, and nothing else is created. */
  lemma SharedAttributeMerged(edges: seq<Edge>, users: seq<UserNode>, a: Attribute)
    ensures var r := MergeAll(edges, SharedCandidates(users, a), true);
      && (forall i, j | 0 <= i < |users| && 0 <= j < |users| && SharesAttribute(users[i], users[j], a) ::
            Present(r, SharedEdge(users[i], users[j], a), true))
      && (forall k | |edges| <= k < |r| :: IsSharedEdge(users, a, r[k]))
  {
    var r := MergeAll(edges, SharedCandidates(users, a), true);
    MergeAllSpec(edges, SharedCandidates(users, a), true);
    forall i, j | 0 <= i < |users| && 0 <= j < |users| && SharesAttribute(users[i], users[j], a)
      ensures Present(r, SharedEdge(users[i], users[j], a), true)
    {
      SharedCandidatesMember(users, a, SharedEdge(users[i], users[j], a));
    }
    forall k | |edges| <= k < |r| ensures IsSharedEdge(users, a, r[k]) {
      SharedCandidatesMember(users, a, r[k]);
    }
  }

  /** Users with at least one payment method in common are linked, carrying the common methods. */
  lemma PaymentMethodMerged(edges: seq<Edge>, users: seq<UserNode>)
    ensures var r := MergeAll(edges, PaymentCandidates(users), true);
      && (forall i, j | 0 <= i < |users| && 0 <= j < |users| && SharesPaymentMethod(users[i], users[j]) ::
            Present(r, PaymentEdge(users[i], users[j]), true))
      && (forall k | |edges| <= k < |r| :: IsPaymentEdge(users, r[k]))
  {
    var r := MergeAll(edges, PaymentCandidates(users), true);
    MergeAllSpec(edges, PaymentCandidates(users), true);
    forall i, j | 0 <= i < |users| && 0 <= j < |users| && SharesPaymentMethod(users[i], users[j])
      ensures Present(r, PaymentEdge(users[i], users[j]), true)
    {
      PaymentCandidatesMember(users, PaymentEdge(users[i], users[j]));
    }
    forall k | |edges| <= k < |r| ensures IsPaymentEdge(users, r[k]) {
      PaymentCandidatesMember(users, r[k]);
    }
  }

  /** The same unordered pair of endpoints. */
  predicate SamePair(e1: Edge, e2: Edge) {
    (e1.src == e2.src && e1.tgt == e2.tgt) || (e1.src == e2.tgt && e1.tgt == e2.src)
  }

  /** Transactions sharing the fingerprint end up linked in one direction or the other, and nothing else is created. */
  lemma LinkedMerged(edges: seq<Edge>, txs: seq<TransactionNode>, f: Fingerprint)
    ensures var r := MergeAll(edges, LinkCandidates(txs, f), false);
      && (forall i, j | 0 <= i < |txs| && 0 <= j < |txs| && SharesFingerprint(txs[i], txs[j], f) ::
            Present(r, LinkEdge(txs[i], txs[j], f), false))
      && (forall k | |edges| <= k < |r| :: IsLinkEdge(txs, f, r[k]))
  {
    var r := MergeAll(edges, LinkCandidates(txs, f), false);
    MergeAllSpec(edges, LinkCandidates(txs, f), false);
    forall i, j | 0 <= i < |txs| && 0 <= j < |txs| && SharesFingerprint(txs[i], txs[j], f)
      ensures Present(r, LinkEdge(txs[i], txs[j], f), false)
    {
      LinkCandidatesMember(txs, f, LinkEdge(txs[i], txs[j], f));
    }
    forall k | |edges| <= k < |r| ensures IsLinkEdge(txs, f, r[k]) {
      LinkCandidatesMember(txs, f, r[k]);
    }
  }

  /** Two LINKED_TO patterns for the same unordered pair and reason carry the same properties. */
  lemma LinkEdgesSamePair(txs: seq<TransactionNode>, f: Fingerprint, e1: Edge, e2: Edge)
    requires UniqueTransactionIds(txs)
    requires IsLinkEdge(txs, f, e1) && IsLinkEdge(txs, f, e2) && SamePair(e1, e2)
    ensures Matches(e1, e2, false)
  {
    var a, b :| 0 <= a < |txs| && 0 <= b < |txs| && SharesFingerprint(txs[a], txs[b], f) && e1 == LinkEdge(txs[a], txs[b], f);
    var c, d :| 0 <= c < |txs| && 0 <= d < |txs| && SharesFingerprint(txs[c], txs[d], f) && e2 == LinkEdge(txs[c], txs[d], f);
    assert c == a || c == b;
    assert e1.props == e2.props;
  }

  /** The LINKED_TO pass creates at most one relationship per unordered pair of transactions and reason. */
  lemma LinkedOncePerPair(edges: seq<Edge>, txs: seq<TransactionNode>, f: Fingerprint)
    requires UniqueTransactionIds(txs)
    ensures var r := MergeAll(edges, LinkCandidates(txs, f), false);
      forall k1, k2 | |edges| <= k1 < k2 < |r| :: !SamePair(r[k1], r[k2])
  {
    var r := MergeAll(edges, LinkCandidates(txs, f), false);
    LinkedMerged(edges, txs, f);
    MergeAllSpec(edges, LinkCandidates(txs, f), false);
    forall k1, k2 | |edges| <= k1 < k2 < |r| ensures !SamePair(r[k1], r[k2]) {
      assert r[..k2][k1] == r[k1];
      assert !Present(r[..k2], r[k2], false);
      if SamePair(r[k1], r[k2]) {
        LinkEdgesSamePair(txs, f, r[k1], r[k2]);
      }
    }
  }

  /** Every child gets PARENT_OF from its parent and SUBSIDIARY_OF towards it, and nothing else is created. */
  lemma ParentChildMerged(edges: seq<Edge>, users: seq<UserNode>, now: Time)
    ensures var r := MergeAll(edges, ParentCandidates(users, now), true);
      && (forall i, j | 0 <= i < |users| && 0 <= j < |users| && IsParentOf(users[j], users[i]) ::
            Present(r, ParentEdge(users[j], users[i], now), true) && Present(r, SubsidiaryEdge(users[j], users[i], now), true))
      && (forall k | |edges| <= k < |r| :: IsParentChildEdge(users, now, r[k]))
  {
    var r := MergeAll(edges, ParentCandidates(users, now), true);
    MergeAllSpec(edges, ParentCandidates(users, now), true);
    forall i, j | 0 <= i < |users| && 0 <= j < |users| && IsParentOf(users[j], users[i])
      ensures Present(r, ParentEdge(users[j], users[i], now), true) && Present(r, SubsidiaryEdge(users[j], users[i], now), true)
    {
      ParentCandidatesMember(users, now, ParentEdge(users[j], users[i], now));
      ParentCandidatesMember(users, now, SubsidiaryEdge(users[j], users[i], now));
    }
    forall k | |edges| <= k < |r| ensures IsParentChildEdge(users, now, r[k]) {
      ParentCandidatesMember(users, now, r[k]);
    }
  }

  /** Every listed director that exists as a User gets DIRECTOR_OF towards the company, and nothing else is created. */
  lemma DirectorMerged(edges: seq<Edge>, users: seq<UserNode>, now: Time)
    ensures var r := MergeAll(edges, DirectorCandidates(users, now), true);
      && (forall i, j | 0 <= i < |users| && 0 <= j < |users| && IsDirectorOf(users[j], users[i]) ::
            Present(r, DirectorEdge(users[j], users[i], now), true))
      && (forall k | |edges| <= k < |r| :: IsDirectorEdge(users, now, r[k]))
  {
    var r := MergeAll(edges, DirectorCandidates(users, now), true);
    MergeAllSpec(edges, DirectorCandidates(users, now), true);
    forall i, j | 0 <= i < |users| && 0 <= j < |users| && IsDirectorOf(users[j], users[i])
      ensures Present(r, DirectorEdge(users[j], users[i], now), true)
    {
      DirectorCandidatesMember(users, now, DirectorEdge(users[j], users[i], now));
    }
    forall k | |edges| <= k < |r| ensures IsDirectorEdge(users, now, r[k]) {
      DirectorCandidatesMember(users, now, r[k]);
    }
  }

  /** Every ordered user pair with two or more relationship types gets a COMPOSITE, and nothing else is created. */
  lemma CompositeMerged(edges: seq<Edge>, users: seq<UserNode>, now: Time)
    ensures var r := CompositePass(edges, users, now);
      && (forall i, j | 0 <= i < |users| && 0 <= j < |users| && |TypesBetween(edges, UserRef(users[i].id), UserRef(users[j].id))| >= 2 ::
            Present(r, CompositeEdge(users[i], users[j], TypesBetween(edges, UserRef(users[i].id), UserRef(users[j].id)), now), true))
      && (forall k | |edges| <= k < |r| :: IsCompositeEdge(edges, users, now, r[k]))
  {
    var r := CompositePass(edges, users, now);
    MergeAllSpec(edges, CompositeCandidates(edges, users, now), true);
    forall i, j | 0 <= i < |users| && 0 <= j < |users| && |TypesBetween(edges, UserRef(users[i].id), UserRef(users[j].id))| >= 2
      ensures Present(r, CompositeEdge(users[i], users[j], TypesBetween(edges, UserRef(users[i].id), UserRef(users[j].id)), now), true)
    {
      CompositeCandidatesMember(edges, users, now, CompositeEdge(users[i], users[j], TypesBetween(edges, UserRef(users[i].id), UserRef(users[j].id)), now));
    }
    forall k | |edges| <= k < |r| ensures IsCompositeEdge(edges, users, now, r[k]) {
      CompositeCandidatesMember(edges, users, now, r[k]);
    }
  }

  // ---------------------------------------------------------------------
  // The eight MERGE passes together
  // ---------------------------------------------------------------------

  /** Every pattern of every one of the eight passes has a match. */
  predicate Covered(edges: seq<Edge>, users: seq<UserNode>, txs: seq<TransactionNode>, now: Time) {
    forall i, w | 0 <= i < PASS_COUNT && w in PassWants(users, txs, PassAt(i), now) :: Present(edges, w, Directed(PassAt(i)))
  }

  /** One MERGE query: the rows it merges and whether its pattern is directed. */
  datatype Step = Step(wants: seq<Edge>, directed: bool)

  /** The eight passes over the given nodes, as MERGE steps in run order. */
  function PassSteps(users: seq<UserNode>, txs: seq<TransactionNode>, now: Time): seq<Step> {
    seq(PASS_COUNT, i requires 0 <= i < PASS_COUNT => Step(PassWants(users, txs, PassAt(i), now), Directed(PassAt(i))))
  }

  /** The relationships after running the steps one after the other. */
  function Fold(edges: seq<Edge>, steps: seq<Step>): seq<Edge>
    decreases |steps|
  {
    if steps == [] then edges
    else MergeAll(Fold(edges, steps[..|steps| - 1]), steps[|steps| - 1].wants, steps[|steps| - 1].directed)
  }

  /** The first k passes are the first k steps. */
  lemma {:induction false} AfterFirstFold(g: Graph, now: Time, k: nat)
    requires k <= PASS_COUNT
    ensures AfterFirst(g, now, k) == Fold(g.edges, PassSteps(g.users, g.transactions, now)[..k])
    decreases k
  {
    if k > 0 {
      var s := PassSteps(g.users, g.transactions, now);
      var p := PassAt(k - 1);
      AfterFirstFold(g, now, k - 1);
      assert s[..k][..k - 1] == s[..k - 1];
      assert s[..k][k - 1] == Step(PassWants(g.users, g.transactions, p, now), Directed(p));
    }
  }

  /** Running steps keeps the relationships that were there as a prefix. */
  lemma {:induction false} FoldPrefix(edges: seq<Edge>, steps: seq<Step>)
    ensures IsPrefix(edges, Fold(edges, steps))
    decreases |steps|
  {
    if steps != [] {
      var n := |steps| - 1;
      var before := Fold(edges, steps[..n]);
      FoldPrefix(edges, steps[..n]);
      MergeAllSpec(before, steps[n].wants, steps[n].directed);
      PrefixTransitive(edges, before, Fold(edges, steps));
    }
  }

  /** After the steps, every row of every step has a match. */
  lemma {:induction false} FoldCovers(edges: seq<Edge>, steps: seq<Step>)
    ensures forall i, w | 0 <= i < |steps| && w in steps[i].wants :: Present(Fold(edges, steps), w, steps[i].directed)
    decreases |steps|
  {
    if steps != [] {
      var n := |steps| - 1;
      var before := Fold(edges, steps[..n]);
      var r := Fold(edges, steps);
      FoldCovers(edges, steps[..n]);
      MergeAllSpec(before, steps[n].wants, steps[n].directed);
      forall i, w | 0 <= i < |steps| && w in steps[i].wants ensures Present(r, w, steps[i].directed) {
        if i < n {
          assert steps[..n][i] == steps[i];
          PresentInExtension(before, r, w, steps[i].directed);
        }
      }
    }
  }

  /** Every relationship the steps add is a row of one of them. */
  lemma {:induction false} FoldCreates(edges: seq<Edge>, steps: seq<Step>, m: nat)
    requires |edges| <= m < |Fold(edges, steps)|
    ensures exists i | 0 <= i < |steps| :: Fold(edges, steps)[m] in steps[i].wants
    decreases |steps|
  {
    if steps != [] {
      var n := |steps| - 1;
      var before := Fold(edges, steps[..n]);
      var r := Fold(edges, steps);
      MergeAllSpec(before, steps[n].wants, steps[n].directed);
      if m < |before| {
        FoldCreates(edges, steps[..n], m);
        var i :| 0 <= i < n && before[m] in steps[..n][i].wants;
        assert r[m] == before[m] && steps[..n][i] == steps[i];
      } else {
        assert r[m] in steps[n].wants;
      }
    }
  }

  /** Steps whose rows all have a match already change nothing. */
  lemma {:induction false} FoldStable(edges: seq<Edge>, steps: seq<Step>)
    requires forall i, w | 0 <= i < |steps| && w in steps[i].wants :: Present(edges, w, steps[i].directed)
    ensures Fold(edges, steps) == edges
    decreases |steps|
  {
    if steps != [] {
      var n := |steps| - 1;
      forall i, w | 0 <= i < n && w in steps[..n][i].wants ensures Present(edges, w, steps[..n][i].directed) {
        assert steps[..n][i] == steps[i];
      }
      FoldStable(edges, steps[..n]);
      MergeAllPresent(edges, steps[n].wants, steps[n].directed);
    }
  }

  /**
   * After the first k passes the relationships that were there are kept,
   * every pattern of those passes has a match, and every relationship
   * added is a pattern of one of them.
   */
  lemma AfterFirstSpec(g: Graph, now: Time, k: nat)
    requires k <= PASS_COUNT
    ensures var r := AfterFirst(g, now, k);
      && IsPrefix(g.edges, r)
      && (forall i, w | 0 <= i < k && w in PassWants(g.users, g.transactions, PassAt(i), now) :: Present(r, w, Directed(PassAt(i))))
      && (forall m | |g.edges| <= m < |r| :: exists i | 0 <= i < k :: r[m] in PassWants(g.users, g.transactions, PassAt(i), now))
  {
    var s := PassSteps(g.users, g.transactions, now)[..k];
    var r := AfterFirst(g, now, k);
    AfterFirstFold(g, now, k);
    FoldPrefix(g.edges, s);
    FoldCovers(g.edges, s);
    forall i, w | 0 <= i < k && w in PassWants(g.users, g.transactions, PassAt(i), now) ensures Present(r, w, Directed(PassAt(i))) {
      assert s[i] == Step(PassWants(g.users, g.transactions, PassAt(i), now), Directed(PassAt(i)));
    }
    forall m | |g.edges| <= m < |r| ensures exists i | 0 <= i < k :: r[m] in PassWants(g.users, g.transactions, PassAt(i), now) {
      FoldCreates(g.edges, s, m);
      var i :| 0 <= i < k && r[m] in s[i].wants;
      assert s[i] == Step(PassWants(g.users, g.transactions, PassAt(i), now), Directed(PassAt(i)));
    }
  }

  /** When every pattern already has a match, the passes change nothing. */
  lemma AfterFirstStable(g: Graph, now: Time, k: nat)
    requires k <= PASS_COUNT
    requires Covered(g.edges, g.users, g.transactions, now)
    ensures AfterFirst(g, now, k) == g.edges
  {
    var s := PassSteps(g.users, g.transactions, now)[..k];
    AfterFirstFold(g, now, k);
    forall i, w | 0 <= i < |s| && w in s[i].wants ensures Present(g.edges, w, s[i].directed) {
      assert s[i] == Step(PassWants(g.users, g.transactions, PassAt(i), now), Directed(PassAt(i)));
    }
    FoldStable(g.edges, s);
  }

  lemma CoveredInExtension(edges: seq<Edge>, bigger: seq<Edge>, users: seq<UserNode>, txs: seq<TransactionNode>, now: Time)
    requires IsPrefix(edges, bigger) && Covered(edges, users, txs, now)
    ensures Covered(bigger, users, txs, now)
  {
    forall i, w | 0 <= i < PASS_COUNT && w in PassWants(users, txs, PassAt(i), now) ensures Present(bigger, w, Directed(PassAt(i))) {
      PresentInExtension(edges, bigger, w, Directed(PassAt(i)));
    }
  }

  /** None of the eight passes creates a COMPOSITE or SHAREHOLDER_OF relationship. */
  lemma PassWantsTypes(users: seq<UserNode>, txs: seq<TransactionNode>, p: Pass, now: Time, w: Edge)
    requires w in PassWants(users, txs, p, now)
    ensures w.relType != COMPOSITE && w.relType != SHAREHOLDER_OF
  {
    match p
    case SharedAttributePass(a) => SharedCandidatesMember(users, a, w);
    case PaymentMethodPass => PaymentCandidatesMember(users, w);
    case LinkedPass(f) => LinkCandidatesMember(txs, f, w);
    case ParentChildPass => ParentCandidatesMember(users, now, w);
    case DirectorPass => DirectorCandidatesMember(users, now, w);
  }

  // ---------------------------------------------------------------------
  // SHAREHOLDER_OF
  // ---------------------------------------------------------------------

  /** A SHAREHOLDER_OF pattern names an existing user, other than the company, whose id the company's text lists. */
  predicate IsShareholderWant(users: seq<UserNode>, w: Edge) {
    && w.relType == SHAREHOLDER_OF
    && w.src.UserRef? && w.tgt.UserRef?
    && HasUser(users, w.src.id)
    && w.src.id != w.tgt.id
    && exists c | 0 <= c < |users| ::
         users[c].id == w.tgt.id && users[c].shareholders.Some? && w.src.id in FindIds(users[c].shareholders.value)
  }

  lemma {:induction false} EntryWantsSound(users: seq<UserNode>, companyId: string, ids: seq<string>, floats: seq<Option<real>>, i: nat, at: nat -> Time)
    requires i <= |ids|
    ensures forall w | w in EntryWants(users, companyId, ids, floats, i, at).edges ::
      && w.relType == SHAREHOLDER_OF && w.src.UserRef? && w.src.id in ids && HasUser(users, w.src.id)
      && w.tgt == UserRef(companyId) && w.src.id != companyId
    decreases |ids| - i
  {
    if i < |ids| && PercentageAt(floats, i).Some? {
      EntryWantsSound(users, companyId, ids, floats, i + 1, at);
    }
  }

  lemma {:induction false} CompaniesWantsSound(users: seq<UserNode>, c: nat, clocks: Clocks)
    requires c <= |users|
    ensures forall w | w in CompaniesWants(users, c, clocks).edges :: IsShareholderWant(users, w)
    decreases |users| - c
  {
    if c < |users| {
      CompaniesWantsSound(users, c + 1, clocks);
      var u := users[c];
      if u.shareholders.Some? && WellShaped(u.shareholders.value) {
        var text := u.shareholders.value;
        EntryWantsSound(users, u.id, FindIds(text), Floats(FindPercentages(text)), 0, clocks(c));
      }
    }
  }

  /** Every SHAREHOLDER_OF pattern names an existing user, other than the company, listed in the company's text. */
  lemma ShareholderWantsSound(users: seq<UserNode>, clocks: Clocks)
    ensures forall w | w in ShareholderWants(users, clocks).edges :: IsShareholderWant(users, w)
  {
    CompaniesWantsSound(users, 0, clocks);
  }

  lemma {:induction false} EntryWantsComplete(users: seq<UserNode>, companyId: string, ids: seq<string>, floats: seq<Option<real>>, i: nat, at: nat -> Time)
    requires i <= |ids|
    requires forall k | i <= k < |ids| :: PercentageAt(floats, k).Some?
    ensures !EntryWants(users, companyId, ids, floats, i, at).failed
    ensures forall k | i <= k < |ids| && HasUser(users, ids[k]) && ids[k] != companyId ::
      ShareholderEdge(ids[k], companyId, PercentageAt(floats, k).value, at(k)) in EntryWants(users, companyId, ids, floats, i, at).edges
    decreases |ids| - i
  {
    if i < |ids| {
      EntryWantsComplete(users, companyId, ids, floats, i + 1, at);
      var w := EntryWants(users, companyId, ids, floats, i, at);
      var rest := EntryWants(users, companyId, ids, floats, i + 1, at);
      var p := PercentageAt(floats, i).value;
      assert w.edges == ShareholderPattern(users, companyId, ids[i], p, at(i)) + rest.edges;
      forall k | i <= k < |ids| && HasUser(users, ids[k]) && ids[k] != companyId
        ensures ShareholderEdge(ids[k], companyId, PercentageAt(floats, k).value, at(k)) in w.edges
      {
        if k == i {
          assert ShareholderPattern(users, companyId, ids[i], p, at(i)) == [ShareholderEdge(ids[k], companyId, p, at(k))];
        }
      }
    }
  }

  predicate CompanyParses(users: seq<UserNode>, u: UserNode, at: nat -> Time) {
    u.shareholders.Some? ==> !CompanyWants(users, u.id, u.shareholders.value, at).failed
  }

  lemma {:induction false} CompaniesWantsComplete(users: seq<UserNode>, c: nat, clocks: Clocks)
    requires c <= |users|
    requires forall d | c <= d < |users| :: CompanyParses(users, users[d], clocks(d))
    ensures !CompaniesWants(users, c, clocks).failed
    decreases |users| - c
  {
    if c < |users| {
      CompaniesWantsComplete(users, c + 1, clocks);
    }
  }

  /** When the pass does not raise, every company's patterns are among its wants. */
  lemma {:induction false} CompaniesWantsHas(users: seq<UserNode>, c: nat, d: nat, w: Edge, clocks: Clocks)
    requires c <= d < |users| && !CompaniesWants(users, c, clocks).failed
    requires users[d].shareholders.Some? && w in CompanyWants(users, users[d].id, users[d].shareholders.value, clocks(d)).edges
    ensures w in CompaniesWants(users, c, clocks).edges
    decreases d - c
  {
    var rest := CompaniesWants(users, c + 1, clocks);
    if users[c].shareholders.None? {
      assert CompaniesWants(users, c, clocks) == rest;
      CompaniesWantsHas(users, c + 1, d, w, clocks);
    } else {
      var own := CompanyWants(users, users[c].id, users[c].shareholders.value, clocks(c));
      assert !own.failed && CompaniesWants(users, c, clocks) == Wants(own.edges + rest.edges, rest.failed);
      if c < d {
        CompaniesWantsHas(users, c + 1, d, w, clocks);
      }
    }
  }

  /** The shareholders text is absent or is what create_user stores for a non-empty list of plain records. */
  ghost predicate StoredFromRecords(u: UserNode) {
    u.shareholders.None? || exists xs :: |xs| > 0 && PlainRecords(xs) && u.shareholders == Some(ListText(xs))
  }

  lemma CompanyWantsFromRecords(users: seq<UserNode>, companyId: string, xs: seq<Shareholder>, at: nat -> Time)
    requires |xs| > 0 && PlainRecords(xs)
    ensures !CompanyWants(users, companyId, ListText(xs), at).failed
    ensures forall i | 0 <= i < |xs| && HasUser(users, xs[i].id) && xs[i].id != companyId ::
      ShareholderEdge(xs[i].id, companyId, DecimalValue(xs[i].percentage), at(i)) in CompanyWants(users, companyId, ListText(xs), at).edges
  {
    ParseStoredShareholders(xs);
    var text := ListText(xs);
    EntryWantsComplete(users, companyId, FindIds(text), Floats(FindPercentages(text)), 0, at);
  }

  /**
   * When every stored shareholders text came from plain records, the pass
   * never raises, and every listed shareholder that exists as a User
   * (other than the company) gets SHAREHOLDER_OF with its percentage and
   * the clock of its own statement.
   */
  lemma ShareholdersFromStoredRecords(users: seq<UserNode>, clocks: Clocks)
    requires forall c | 0 <= c < |users| :: StoredFromRecords(users[c])
    ensures !ShareholderWants(users, clocks).failed
    ensures forall c, xs: seq<Shareholder>, i | 0 <= c < |users| && |xs| > 0 && PlainRecords(xs) && users[c].shareholders == Some(ListText(xs))
                               && 0 <= i < |xs| && HasUser(users, xs[i].id) && xs[i].id != users[c].id ::
      ShareholderEdge(xs[i].id, users[c].id, DecimalValue(xs[i].percentage), clocks(c)(i)) in ShareholderWants(users, clocks).edges
  {
    forall d | 0 <= d < |users| ensures CompanyParses(users, users[d], clocks(d)) {
      if users[d].shareholders.Some? {
        var xs :| |xs| > 0 && PlainRecords(xs) && users[d].shareholders == Some(ListText(xs));
        CompanyWantsFromRecords(users, users[d].id, xs, clocks(d));
      }
    }
    CompaniesWantsComplete(users, 0, clocks);
    forall c, xs: seq<Shareholder>, i | 0 <= c < |users| && |xs| > 0 && PlainRecords(xs) && users[c].shareholders == Some(ListText(xs))
                       && 0 <= i < |xs| && HasUser(users, xs[i].id) && xs[i].id != users[c].id
      ensures ShareholderEdge(xs[i].id, users[c].id, DecimalValue(xs[i].percentage), clocks(c)(i)) in ShareholderWants(users, clocks).edges
    {
      CompanyWantsFromRecords(users, users[c].id, xs, clocks(c));
      CompaniesWantsHas(users, 0, c, ShareholderEdge(xs[i].id, users[c].id, DecimalValue(xs[i].percentage), clocks(c)(i)), clocks);
    }
  }

  /**
   * Ids and percentages are paired by position, so one percentage the
   * number pattern cannot read (here a negative one) shifts every later
   * percentage onto the previous id: the first shareholder gets the second
   * one's percentage and the second gets 0.0.
   */
  lemma NegativePercentageShiftsPairing(users: seq<UserNode>, companyId: string, x: Shareholder, y: Shareholder, at: nat -> Time)
    requires PlainId(x.id) && ValidDecimal(x.percentage) && PlainId(y.id) && ValidDecimal(y.percentage)
    requires HasUser(users, x.id) && HasUser(users, y.id) && x.id != companyId && y.id != companyId
    ensures CompanyWants(users, companyId, NegativeFirstText(x, y), at)
         == Wants([ShareholderEdge(x.id, companyId, DecimalValue(y.percentage), at(0)),
                   ShareholderEdge(y.id, companyId, 0.0, at(1))], false)
  {
    NegativeFirstScans(x, y);
    ParseFloatDecimal(y.percentage);
    var ids := [x.id, y.id];
    var ps := Floats([DecimalText(y.percentage)]);
    FloatsSpec([DecimalText(y.percentage)]);
    assert PercentageAt(ps, 0) == Some(DecimalValue(y.percentage));
    assert PercentageAt(ps, 1) == Some(0.0);
    assert EntryWants(users, companyId, ids, ps, 2, at) == Wants([], false);
    assert EntryWants(users, companyId, ids, ps, 1, at) == Wants([ShareholderEdge(y.id, companyId, 0.0, at(1))], false);
  }

  /**
   * A shareholders text that lists the same record twice runs query2 twice,
   * as two statements. When their clocks differ, the second pattern does not
   * match the relationship the first one created, so the company gets two
   * SHAREHOLDER_OF from that user; when the clocks agree it gets one.
   */
  lemma RepeatedRecordPerStatement(edges: seq<Edge>, users: seq<UserNode>, companyId: string, x: Shareholder, at: nat -> Time)
    requires PlainId(x.id) && ValidDecimal(x.percentage) && HasUser(users, x.id) && x.id != companyId
    ensures var p := DecimalValue(x.percentage);
      var w0, w1 := ShareholderEdge(x.id, companyId, p, at(0)), ShareholderEdge(x.id, companyId, p, at(1));
      && CompanyWants(users, companyId, ListText([x, x]), at) == Wants([w0, w1], false)
      && (at(0) != at(1) && !Present(edges, w0, true) && !Present(edges, w1, true) ==>
            MergeAll(edges, [w0, w1], true) == edges + [w0, w1])
      && (at(0) == at(1) ==> MergeAll(edges, [w0, w1], true) == Merge(edges, w0, true))
  {
    RepeatedRecordWants(users, companyId, x, at);
    TwoStatementsMerge(edges, x.id, companyId, DecimalValue(x.percentage), at(0), at(1));
  }

  lemma RepeatedRecordWants(users: seq<UserNode>, companyId: string, x: Shareholder, at: nat -> Time)
    requires PlainId(x.id) && ValidDecimal(x.percentage) && HasUser(users, x.id) && x.id != companyId
    ensures var p := DecimalValue(x.percentage);
      CompanyWants(users, companyId, ListText([x, x]), at)
        == Wants([ShareholderEdge(x.id, companyId, p, at(0)), ShareholderEdge(x.id, companyId, p, at(1))], false)
  {
    var text := ListText([x, x]);
    ParseStoredShareholders([x, x]);
    assert Ids([x, x]) == [x.id, x.id];
    TwoEntriesWants(users, companyId, x.id, Floats(FindPercentages(text)), DecimalValue(x.percentage), at);
  }

  /** The inner loop over one id extracted twice, with the same percentage both times. */
  lemma TwoEntriesWants(users: seq<UserNode>, companyId: string, id: string, floats: seq<Option<real>>, p: real, at: nat -> Time)
    requires HasUser(users, id) && id != companyId
    requires PercentageAt(floats, 0) == Some(p) && PercentageAt(floats, 1) == Some(p)
    ensures EntryWants(users, companyId, [id, id], floats, 0, at)
         == Wants([ShareholderEdge(id, companyId, p, at(0)), ShareholderEdge(id, companyId, p, at(1))], false)
  {
    assert EntryWants(users, companyId, [id, id], floats, 2, at) == Wants([], false);
    assert EntryWants(users, companyId, [id, id], floats, 1, at) == Wants([ShareholderEdge(id, companyId, p, at(1))], false);
  }

  /** Two query2 statements for the same pair and percentage, reading clocks t0 and t1. */
  lemma TwoStatementsMerge(edges: seq<Edge>, shareholderId: string, companyId: string, p: real, t0: Time, t1: Time)
    ensures var w0, w1 := ShareholderEdge(shareholderId, companyId, p, t0), ShareholderEdge(shareholderId, companyId, p, t1);
      && (t0 != t1 && !Present(edges, w0, true) && !Present(edges, w1, true) ==>
            MergeAll(edges, [w0, w1], true) == edges + [w0, w1])
      && (t0 == t1 ==> MergeAll(edges, [w0, w1], true) == Merge(edges, w0, true))
  {
    var w0, w1 := ShareholderEdge(shareholderId, companyId, p, t0), ShareholderEdge(shareholderId, companyId, p, t1);
    var m0 := Merge(edges, w0, true);
    assert [w0, w1][1..] == [w1] && [w1][1..] == [];
    assert MergeAll(edges, [w0, w1], true) == MergeAll(m0, [w1], true);
    assert MergeAll(m0, [w1], true) == MergeAll(Merge(m0, w1, true), [], true);
    if t0 != t1 && !Present(edges, w0, true) && !Present(edges, w1, true) {
      assert !Matches(w0, w1, true) by {
        assert w1.props["created_at"] != w0.props["created_at"];
      }
      assert !Present(edges + [w0], w1, true);
    }
  }

  // ---------------------------------------------------------------------
  // Composite strength
  // ---------------------------------------------------------------------

  lemma {:induction false} DistinctCard(s: seq<string>)
    requires Distinct(s)
    ensures |(set t | t in s)| == |s|
    decreases |s|
  {
    if s != [] {
      assert Distinct(s[1..]) by {
        forall i, j | 0 <= i < |s[1..]| && 0 <= j < |s[1..]| && i != j ensures s[1..][i] != s[1..][j] {
          assert s[1..][i] == s[i + 1] && s[1..][j] == s[j + 1];
        }
      }
      DistinctCard(s[1..]);
      assert (set t | t in s) == (set t | t in s[1..]) + {s[0]};
      assert s[0] !in (set t | t in s[1..]) by {
        forall k | 0 <= k < |s[1..]| ensures s[1..][k] != s[0] {
          assert s[1..][k] == s[k + 1];
        }
      }
    }
  }

  /** The strength depends only on which types occur, not on the order `collect` lists them in. */
  lemma StrengthOrderFree(a: seq<string>, b: seq<string>)
    requires Distinct(a) && Distinct(b)
    requires forall t :: t in a <==> t in b
    ensures Strength(a) == Strength(b)
  {
    DistinctCard(a);
    DistinctCard(b);
    assert (set t | t in a) == (set t | t in b);
  }

  /** Each distinct type adds 0.2; the bonuses add at most 1.1 more, and nothing caps the sum at 1.0. */
  lemma StrengthBounds(types: seq<string>)
    ensures 2 * |types| <= Strength(types) <= 2 * |types| + 11
    ensures Strength([PARENT_OF, SHAREHOLDER_OF]) == 9
    ensures Strength([SHAREHOLDER_OF, DIRECTOR_OF, "LEGAL_ENTITY_OF"]) == 10
    ensures Strength([SHARED_EMAIL, SHARED_PHONE, SHARED_ADDRESS, SHARED_PAYMENT_METHOD,
                      PARENT_OF, SUBSIDIARY_OF, DIRECTOR_OF, SHAREHOLDER_OF]) == 27
  {
  }

  // ---------------------------------------------------------------------
  // The whole run
  // ---------------------------------------------------------------------

  /** Unfolding helper: when the shareholder pass raises, RunInference ends with what it had merged so far. */
  lemma RunStopsOnRaise(g: Graph, now: Time, clocks: Clocks)
    requires ShareholderWants(g.users, clocks).failed
    ensures RunInference(g, now, clocks).graph.edges == AfterShareholders(g, now, clocks)
  {
  }

  /** Unfolding helper: otherwise RunInference runs the composite pass over everything the earlier passes produced. */
  lemma RunEndsWithComposite(g: Graph, now: Time, clocks: Clocks)
    requires !ShareholderWants(g.users, clocks).failed
    ensures RunInference(g, now, clocks).graph.edges == CompositePass(AfterShareholders(g, now, clocks), g.users, now)
  {
  }

  /** What MERGE guarantees for the shareholder pass. */
  lemma ShareholderPassSpec(g: Graph, now: Time, clocks: Clocks)
    ensures var e8, e9 := AfterPasses(g, now), AfterShareholders(g, now, clocks);
      && IsPrefix(e8, e9)
      && (forall w | w in ShareholderWants(g.users, clocks).edges :: Present(e9, w, true))
      && (forall k | |e8| <= k < |e9| :: e9[k] in ShareholderWants(g.users, clocks).edges)
  {
    MergeAllSpec(AfterPasses(g, now), ShareholderWants(g.users, clocks).edges, true);
  }

  lemma PrefixReflexive(a: seq<Edge>)
    ensures IsPrefix(a, a)
  {
  }

  /** A run keeps the nodes, only appends relationships, and completes exactly when the shareholder pass does not raise. */
  lemma RunShape(g: Graph, now: Time, clocks: Clocks)
    ensures var r := RunInference(g, now, clocks);
      && r.graph.users == g.users && r.graph.transactions == g.transactions
      && IsPrefix(g.edges, AfterPasses(g, now))
      && IsPrefix(AfterPasses(g, now), AfterShareholders(g, now, clocks))
      && IsPrefix(AfterShareholders(g, now, clocks), r.graph.edges)
      && IsPrefix(g.edges, r.graph.edges)
      && (r.completed <==> !ShareholderWants(g.users, clocks).failed)
  {
    var e8 := AfterPasses(g, now);
    var e9 := AfterShareholders(g, now, clocks);
    var E := RunInference(g, now, clocks).graph.edges;
    AfterFirstSpec(g, now, PASS_COUNT);
    ShareholderPassSpec(g, now, clocks);
    MergeAllSpec(e9, CompositeCandidates(e9, g.users, now), true);
    if ShareholderWants(g.users, clocks).failed {
      RunStopsOnRaise(g, now, clocks);
      PrefixReflexive(e9);
    } else {
      RunEndsWithComposite(g, now, clocks);
    }
    PrefixTransitive(g.edges, e8, e9);
    PrefixTransitive(g.edges, e9, E);
  }

  /** After a run, every pattern of every pass it reached has a match. */
  lemma RunCovers(g: Graph, now: Time, clocks: Clocks)
    ensures var r := RunInference(g, now, clocks);
      && Covered(r.graph.edges, g.users, g.transactions, now)
      && (forall w | w in ShareholderWants(g.users, clocks).edges :: Present(r.graph.edges, w, true))
      && (r.completed ==> forall w | w in CompositeCandidates(AfterShareholders(g, now, clocks), g.users, now) :: Present(r.graph.edges, w, true))
  {
    var e8 := AfterPasses(g, now);
    var e9 := AfterShareholders(g, now, clocks);
    var E := RunInference(g, now, clocks).graph.edges;
    RunShape(g, now, clocks);
    AfterFirstSpec(g, now, PASS_COUNT);
    ShareholderPassSpec(g, now, clocks);
    MergeAllSpec(e9, CompositeCandidates(e9, g.users, now), true);
    PrefixTransitive(e8, e9, E);
    CoveredInExtension(e8, E, g.users, g.transactions, now);
    forall w | w in ShareholderWants(g.users, clocks).edges ensures Present(E, w, true) {
      PresentInExtension(e9, E, w, true);
    }
  }

  /** A run creates nothing but patterns of the passes it reached. */
  lemma RunCreatesOnly(g: Graph, now: Time, clocks: Clocks)
    ensures var r := RunInference(g, now, clocks);
      forall k | |g.edges| <= k < |r.graph.edges| ::
        || (exists i | 0 <= i < PASS_COUNT :: r.graph.edges[k] in PassWants(g.users, g.transactions, PassAt(i), now))
        || r.graph.edges[k] in ShareholderWants(g.users, clocks).edges
        || (r.completed && r.graph.edges[k] in CompositeCandidates(AfterShareholders(g, now, clocks), g.users, now))
  {
    var e8 := AfterPasses(g, now);
    var e9 := AfterShareholders(g, now, clocks);
    var r := RunInference(g, now, clocks);
    var E := r.graph.edges;
    RunShape(g, now, clocks);
    AfterFirstSpec(g, now, PASS_COUNT);
    ShareholderPassSpec(g, now, clocks);
    if r.completed {
      RunEndsWithComposite(g, now, clocks);
      MergeAllSpec(e9, CompositeCandidates(e9, g.users, now), true);
    } else {
      RunStopsOnRaise(g, now, clocks);
    }
    forall k | |g.edges| <= k < |E|
      ensures || (exists i | 0 <= i < PASS_COUNT :: E[k] in PassWants(g.users, g.transactions, PassAt(i), now))
              || E[k] in ShareholderWants(g.users, clocks).edges
              || (r.completed && E[k] in CompositeCandidates(e9, g.users, now))
    {
      if k < |e8| {
        assert E[k] == e8[k];
      } else if k < |e9| {
        assert E[k] == e9[k];
      }
    }
  }

  /** A completed run followed by a run with the same clocks: the eight passes and the shareholder pass add nothing. */
  lemma RerunSameClock(g: Graph, now: Time, clocks: Clocks)
    requires RunInference(g, now, clocks).completed
    ensures var g1 := RunInference(g, now, clocks).graph;
      && AfterShareholders(g1, now, clocks) == g1.edges
      && RunInference(g1, now, clocks) == Run(g1.(edges := CompositePass(g1.edges, g1.users, now)), true)
  {
    var g1 := RunInference(g, now, clocks).graph;
    RunShape(g, now, clocks);
    RunCovers(g, now, clocks);
    AfterFirstStable(g1, now, PASS_COUNT);
    MergeAllPresent(g1.edges, ShareholderWants(g1.users, clocks).edges, true);
  }

  /** No relationship a -> b of the given type. */
  lemma NoTypeBetween(edges: seq<Edge>, a: NodeRef, b: NodeRef, t: string, k: nat)
    requires t !in TypesBetween(edges, a, b) && k < |edges| && edges[k].src == a && edges[k].tgt == b
    ensures edges[k].relType != t
  {
  }

  /** The passes before composite never create a COMPOSITE. */
  lemma NoCompositeBeforeCompositePass(g: Graph, now: Time, clocks: Clocks, a: NodeRef, b: NodeRef)
    requires COMPOSITE !in TypesBetween(g.edges, a, b)
    ensures COMPOSITE !in TypesBetween(AfterShareholders(g, now, clocks), a, b)
  {
    var e8 := AfterPasses(g, now);
    var e9 := AfterShareholders(g, now, clocks);
    RunShape(g, now, clocks);
    AfterFirstSpec(g, now, PASS_COUNT);
    ShareholderPassSpec(g, now, clocks);
    ShareholderWantsSound(g.users, clocks);
    forall k | 0 <= k < |e9| && e9[k].src == a && e9[k].tgt == b ensures e9[k].relType != COMPOSITE {
      if k < |g.edges| {
        assert e9[k] == g.edges[k];
        NoTypeBetween(g.edges, a, b, COMPOSITE, k);
      } else if k < |e8| {
        assert e9[k] == e8[k];
        var i :| 0 <= i < PASS_COUNT && e8[k] in PassWants(g.users, g.transactions, PassAt(i), now);
        PassWantsTypes(g.users, g.transactions, PassAt(i), now, e8[k]);
      } else {
        assert e9[k] in ShareholderWants(g.users, clocks).edges;
      }
    }
  }

  /**
   * After a composite pass over `edges` in which a -> b had no COMPOSITE,
   * no relationship matches a COMPOSITE pattern for a -> b whose list of
   * types contains COMPOSITE.
   */
  lemma NoMatchForRecomputedComposite(edges: seq<Edge>, users: seq<UserNode>, now: Time, i: nat, j: nat, types: seq<string>)
    requires i < |users| && j < |users|
    requires COMPOSITE !in TypesBetween(edges, UserRef(users[i].id), UserRef(users[j].id))
    requires COMPOSITE in types
    ensures !Present(CompositePass(edges, users, now), CompositeEdge(users[i], users[j], types, now), true)
  {
    var a, b := UserRef(users[i].id), UserRef(users[j].id);
    var E := CompositePass(edges, users, now);
    var want := CompositeEdge(users[i], users[j], types, now);
    CompositeMerged(edges, users, now);
    MergeAllSpec(edges, CompositeCandidates(edges, users, now), true);
    assert want.props["relationship_types"] == StrList(types);
    forall k | 0 <= k < |E| ensures !Matches(E[k], want, true) {
      if k < |edges| {
        assert E[k] == edges[k];
        if E[k].src == a && E[k].tgt == b {
          NoTypeBetween(edges, a, b, COMPOSITE, k);
        }
      } else {
        var x, y :| 0 <= x < |users| && 0 <= y < |users| &&
          |TypesBetween(edges, UserRef(users[x].id), UserRef(users[y].id))| >= 2 &&
          E[k] == CompositeEdge(users[x], users[y], TypesBetween(edges, UserRef(users[x].id), UserRef(users[y].id)), now);
        if E[k].src == a && E[k].tgt == b {
          assert UserRef(users[x].id) == a && UserRef(users[y].id) == b;
          assert E[k].props["relationship_types"] == StrList(TypesBetween(edges, a, b));
          assert TypesBetween(edges, a, b) != types;
        }
      }
    }
  }

  /** Two different members make a list of length at least two. */
  lemma TwoMembers(s: seq<string>, x: string, y: string)
    requires x in s && y in s && x != y
    ensures |s| >= 2
  {
    var i1 :| 0 <= i1 < |s| && s[i1] == x;
    var i2 :| 0 <= i2 < |s| && s[i2] == y;
    assert i1 != i2;
  }

  /** A relationship a -> b of type COMPOSITE appended after relationships of other types a -> b. */
  lemma CompositeNextToOthers(edges: seq<Edge>, bigger: seq<Edge>, a: NodeRef, b: NodeRef, m: nat, t: string)
    requires IsPrefix(edges, bigger)
    requires m < |bigger| && bigger[m].src == a && bigger[m].tgt == b && bigger[m].relType == COMPOSITE
    requires t in TypesBetween(edges, a, b) && COMPOSITE !in TypesBetween(edges, a, b)
    ensures COMPOSITE in TypesBetween(bigger, a, b) && |TypesBetween(bigger, a, b)| >= 2
  {
    var k :| 0 <= k < |edges| && edges[k].src == a && edges[k].tgt == b && edges[k].relType == t;
    assert bigger[k] == edges[k];
    TwoMembers(TypesBetween(bigger, a, b), COMPOSITE, t);
  }

  /** After the composite pass, a pair it linked lists COMPOSITE among its types, next to the earlier ones. */
  lemma CompositeListsItself(edges: seq<Edge>, users: seq<UserNode>, now: Time, i: nat, j: nat)
    requires i < |users| && j < |users|
    requires COMPOSITE !in TypesBetween(edges, UserRef(users[i].id), UserRef(users[j].id))
    requires |TypesBetween(edges, UserRef(users[i].id), UserRef(users[j].id))| >= 2
    ensures var types := TypesBetween(CompositePass(edges, users, now), UserRef(users[i].id), UserRef(users[j].id));
      COMPOSITE in types && |types| >= 2
  {
    var a, b := UserRef(users[i].id), UserRef(users[j].id);
    var T1 := TypesBetween(edges, a, b);
    var E := CompositePass(edges, users, now);
    var want := CompositeEdge(users[i], users[j], T1, now);
    CompositeCandidatesMember(edges, users, now, want);
    MergeAllSpec(edges, CompositeCandidates(edges, users, now), true);
    var m :| 0 <= m < |E| && Matches(E[m], want, true);
    CompositeNextToOthers(edges, E, a, b, m, T1[0]);
  }

  /** A composite pattern with no match yet makes the composite pass create a relationship. */
  lemma CompositePassGrows(edges: seq<Edge>, users: seq<UserNode>, now: Time, i: nat, j: nat)
    requires i < |users| && j < |users|
    requires |TypesBetween(edges, UserRef(users[i].id), UserRef(users[j].id))| >= 2
    requires !Present(edges, CompositeEdge(users[i], users[j], TypesBetween(edges, UserRef(users[i].id), UserRef(users[j].id)), now), true)
    ensures |CompositePass(edges, users, now)| > |edges|
  {
    var want := CompositeEdge(users[i], users[j], TypesBetween(edges, UserRef(users[i].id), UserRef(users[j].id)), now);
    var r := CompositePass(edges, users, now);
    CompositeMerged(edges, users, now);
    assert Present(r, want, true);
    MergeAllSpec(edges, CompositeCandidates(edges, users, now), true);
    assert IsPrefix(edges, r);
    PrefixGainsMatch(edges, r, want, true);
  }

  /** An extension that has a match the original lacks is longer. */
  lemma PrefixGainsMatch(edges: seq<Edge>, r: seq<Edge>, want: Edge, directed: bool)
    requires IsPrefix(edges, r) && Present(r, want, directed) && !Present(edges, want, directed)
    ensures |r| > |edges|
  {
    PrefixOfSameLength(edges, r);
  }

  lemma PrefixOfSameLength(edges: seq<Edge>, r: seq<Edge>)
    requires IsPrefix(edges, r)
    ensures |r| == |edges| ==> r == edges
  {
    assert r[..|r|] == r;
  }

  /**
   * The composite pass is not idempotent: a completed run followed by a
   * run with the same clocks adds a second COMPOSITE between any pair the
   * first run gave one, because the new COMPOSITE itself changes the
   * pair's list of types and hence the MERGE pattern.
   */
  lemma CompositeRerunGrows(g: Graph, now: Time, clocks: Clocks, i: nat, j: nat)
    requires RunInference(g, now, clocks).completed
    requires i < |g.users| && j < |g.users|
    requires COMPOSITE !in TypesBetween(g.edges, UserRef(g.users[i].id), UserRef(g.users[j].id))
    requires |TypesBetween(AfterShareholders(g, now, clocks), UserRef(g.users[i].id), UserRef(g.users[j].id))| >= 2
    ensures var g1 := RunInference(g, now, clocks).graph;
      |RunInference(g1, now, clocks).graph.edges| > |g1.edges|
  {
    var users := g.users;
    var a, b := UserRef(users[i].id), UserRef(users[j].id);
    var e9 := AfterShareholders(g, now, clocks);
    var g1 := RunInference(g, now, clocks).graph;
    RunShape(g, now, clocks);
    RunEndsWithComposite(g, now, clocks);
    RerunSameClock(g, now, clocks);
    NoCompositeBeforeCompositePass(g, now, clocks, a, b);
    CompositeListsItself(e9, users, now, i, j);
    var T2 := TypesBetween(g1.edges, a, b);
    NoMatchForRecomputedComposite(e9, users, now, i, j, T2);
    CompositePassGrows(g1.edges, users, now, i, j);
  }

  /** After any run, every parent has its PARENT_OF with that run's clock. */
  lemma ParentOfAfterRun(g: Graph, now: Time, clocks: Clocks, i: nat, j: nat)
    requires i < |g.users| && j < |g.users| && IsParentOf(g.users[j], g.users[i])
    ensures Present(RunInference(g, now, clocks).graph.edges, ParentEdge(g.users[j], g.users[i], now), true)
  {
    ParentCandidatesMember(g.users, now, ParentEdge(g.users[j], g.users[i], now));
    PassOrder();
    PassPatternBeforeComposite(g, now, clocks, 6, ParentEdge(g.users[j], g.users[i], now));
    RunShape(g, now, clocks);
    PresentInExtension(AfterShareholders(g, now, clocks), RunInference(g, now, clocks).graph.edges, ParentEdge(g.users[j], g.users[i], now), true);
  }

  /** Two patterns that differ in `created_at` are matched by two different relationships. */
  lemma DistinctClocksDistinctEdges(edges: seq<Edge>, w1: Edge, w2: Edge)
    requires Present(edges, w1, true) && Present(edges, w2, true)
    requires "created_at" in w1.props && "created_at" in w2.props && w1.props["created_at"] != w2.props["created_at"]
    ensures exists k1, k2 | 0 <= k1 < |edges| && 0 <= k2 < |edges| :: k1 != k2 && Matches(edges[k1], w1, true) && Matches(edges[k2], w2, true)
  {
    var k1 :| 0 <= k1 < |edges| && Matches(edges[k1], w1, true);
    var k2 :| 0 <= k2 < |edges| && Matches(edges[k2], w2, true);
    assert edges[k1].props["created_at"] != edges[k2].props["created_at"];
  }

  /**
   * A later run duplicates every PARENT_OF: the pattern includes
   * `created_at`, so the second run's pattern never matches the first
   * run's relationship.
   */
  lemma LaterRunDuplicatesParentOf(g: Graph, t1: Time, c1: Clocks, t2: Time, c2: Clocks, i: nat, j: nat)
    requires t1 != t2
    requires i < |g.users| && j < |g.users| && IsParentOf(g.users[j], g.users[i])
    ensures var g1 := RunInference(g, t1, c1).graph;
      var E2 := RunInference(g1, t2, c2).graph.edges;
      exists k1, k2 | 0 <= k1 < |E2| && 0 <= k2 < |E2| ::
        k1 != k2 && Matches(E2[k1], ParentEdge(g.users[j], g.users[i], t1), true) && Matches(E2[k2], ParentEdge(g.users[j], g.users[i], t2), true)
  {
    var g1 := RunInference(g, t1, c1).graph;
    var E2 := RunInference(g1, t2, c2).graph.edges;
    RunShape(g, t1, c1);
    RunShape(g1, t2, c2);
    ParentOfAfterRun(g, t1, c1, i, j);
    ParentOfAfterRun(g1, t2, c2, i, j);
    PresentInExtension(g1.edges, E2, ParentEdge(g.users[j], g.users[i], t1), true);
    DistinctClocksDistinctEdges(E2, ParentEdge(g.users[j], g.users[i], t1), ParentEdge(g.users[j], g.users[i], t2));
  }

  /** A pattern of one of the eight passes has a match among the relationships the composite pass sees. */
  lemma PassPatternBeforeComposite(g: Graph, now: Time, clocks: Clocks, i: nat, w: Edge)
    requires i < PASS_COUNT && w in PassWants(g.users, g.transactions, PassAt(i), now)
    ensures Present(AfterShareholders(g, now, clocks), w, Directed(PassAt(i)))
  {
    RunShape(g, now, clocks);
    AfterFirstSpec(g, now, PASS_COUNT);
    PresentInExtension(AfterPasses(g, now), AfterShareholders(g, now, clocks), w, Directed(PassAt(i)));
  }

  /**
   * Two users sharing both an email and a phone end up, after a completed
   * run, with a COMPOSITE whose types include both and whose strength is
   * at least 0.6.
   */
  lemma CompositeFromSharedContacts(g: Graph, now: Time, clocks: Clocks, i: nat, j: nat)
    requires RunInference(g, now, clocks).completed
    requires i < |g.users| && j < |g.users|
    requires SharesAttribute(g.users[i], g.users[j], Email) && SharesAttribute(g.users[i], g.users[j], Phone)
    ensures var types := TypesBetween(AfterShareholders(g, now, clocks), UserRef(g.users[i].id), UserRef(g.users[j].id));
      && SHARED_EMAIL in types && SHARED_PHONE in types && Strength(types) >= 6
      && Present(RunInference(g, now, clocks).graph.edges, CompositeEdge(g.users[i], g.users[j], types, now), true)
  {
    var users := g.users;
    var a, b := UserRef(users[i].id), UserRef(users[j].id);
    var e9 := AfterShareholders(g, now, clocks);
    var types := TypesBetween(e9, a, b);
    PassOrder();
    SharedCandidatesMember(users, Email, SharedEdge(users[i], users[j], Email));
    PassPatternBeforeComposite(g, now, clocks, 0, SharedEdge(users[i], users[j], Email));
    SharedCandidatesMember(users, Phone, SharedEdge(users[i], users[j], Phone));
    PassPatternBeforeComposite(g, now, clocks, 1, SharedEdge(users[i], users[j], Phone));
    TwoMembers(types, SHARED_EMAIL, SHARED_PHONE);
    CompositeMerged(e9, users, now);
  }
}
