# User–transaction graph: inference and analytics, modelled in Dafny

The system keeps users (people and companies) and their transactions as a
property graph. Users are `User` nodes. Transactions are `Transaction` nodes,
linked to their sender by `SENT` and to their receiver by `RECEIVED_BY`. The
model covers two parts of that system:

- **The graph operations.** These create users, transactions and business
  relationships. They also run the inference engine, whose detectors infer new
  relationships with Cypher `MERGE`:
  - shared email, phone, address or payment method;
  - transactions linked by IP address or device;
  - parent/subsidiary, director and shareholder links;
  - a final `COMPOSITE` relationship for every pair of users that already has
    two or more relationship types.
- **The analytics service.**
  - Shortest path between two ids.
  - Clustering of transactions that lie close together in the graph.
  - The graph metrics: counts, relationship counts per type and the five most
    connected nodes.

The modules:

- `Graph` (graph.dfy) is the store as a value:
  - users and transactions in creation order, and relationships in creation
    order;
  - Cypher `MERGE` of one pattern (`Merge`) and of a query's rows in order
    (`MergeAll`), with their guarantees;
  - the cartesian product `MATCH (a), (b)` as `Pairs`.
- `Inference` (inference.dfy) describes each detector as the sequence of
  relationship patterns its rows merge. It also defines the pass order and a
  whole inference run, `RunInference`. The clocks that `datetime()` reads
  are parameters: one for the single-statement detectors and, because each
  shareholder `query2` is a statement of its own, one per such statement.
- `Shareholders` and `ShareholderRoundTrip` (shareholders.dfy) cover the text
  form of shareholder lists:
  - the text `create_user` stores, which is Python's `str()` of a list of
    `{'id', 'percentage'}` records;
  - the two `re.findall` scans and `float()` that the shareholder detector
    applies to it;
  - a round trip from the records, to the stored text, to the extracted
    shareholders.
- `InferenceProperties` (inference_properties.dfy) proves what the passes and
  the run guarantee.
- `Store` (store.dfy) is a class `GraphStore` whose sequence fields the
  operations update in place:
  - every operation is a method proved against the functions above;
  - the shareholder detector keeps its nested loop;
  - `DetectAndCreateRelationships` runs the detectors in order and is proved
    equal to `RunInference`.
- `Paths` (paths.dfy) is the shortest-path query:
  - a breadth-first search as growing balls of radius `k`;
  - walks, and the proof that the search finds a walk exactly when one exists,
    and a shortest one;
  - the id lookup and the response shape.
- `Clusters` (clusters.dfy):
  - the clustering query's rows;
  - the loop that turns those rows into clusters, as an imperative method.
- `Metrics` (metrics.dfy) is the three metric queries and the response built
  from them.

## Model

| member | source | states |
|---|---|---|
| Graph.Merge | app/database/operations.py:200 | `MERGE` of a pattern: afterwards the pattern has a match; the store is unchanged when a match already existed; otherwise the pattern is appended. |
| Graph.MergeAll | app/database/operations.py:198-201 | The rows of one MERGE query applied one after the other, each seeing the earlier rows' writes. Its guarantees are MergeAllSpec, MergeAllPresent, MergeAllIdempotent and MergeAllAppend. |
| Graph.MergeAllSpec | app/database/operations.py:198-201 | Merging a query's rows keeps the existing relationships as a prefix. Every row's pattern has a match afterwards. Each relationship created is one of the row patterns and had no match when it was created. |
| Graph.MergeAllPresent | app/database/operations.py:198-201 | Rows whose patterns all have a match already change nothing. |
| Graph.MergeAllIdempotent | app/database/operations.py:198-201 | Merging the same rows twice gives what merging them once gives. |
| Graph.MergeAllAppend | app/database/operations.py:362-376 | Merging two lists of rows in turn equals merging their concatenation. The shareholder loop uses it to merge one `query2` statement at a time, each pattern carrying that statement's own clock. |
| Graph.PresentInExtension | app/database/operations.py:171-192 | A pattern with a match keeps it when later passes append relationships. |
| Graph.PairsMember | app/database/operations.py:198 | An edge is among the patterns of `MATCH (a), (b)` exactly when some pair of nodes produces it. |
| Inference.SharedCandidatesMember | app/database/operations.py:195-228 | The shared-email/phone/address rows are exactly the ordered pairs of distinct users with the same non-null value. Each row's pattern carries that value. |
| Inference.SharedMethods | app/database/operations.py:237 | The shared-method list holds exactly the methods in both lists. Each method of the second list occurs as often as in the first list, and the others not at all. |
| Inference.SharedMethodsAppend | app/database/operations.py:237 | Filtering a concatenation filters each part in turn, so the result keeps the first list's order. |
| Inference.SharedMethodsSingle | app/database/operations.py:237 | A single method is kept exactly when the second list has it. With SharedMethodsAppend this fixes the result: the first list filtered in its own order. |
| Inference.PaymentCandidatesMember | app/database/operations.py:231-242 | The payment rows are exactly the ordered pairs of distinct users with at least one method in common. |
| Inference.LinkCandidatesMember | app/database/operations.py:245-272 | The LINKED_TO rows are exactly the pairs of distinct transactions with the same non-null IP address (or device id), with reason `shared_ip` (or `shared_device`). |
| Inference.ParentCandidatesMember | app/database/operations.py:304-316 | Each child row yields PARENT_OF from its parent and SUBSIDIARY_OF towards it. A child row is one whose `parent_entity_id` names another user. The run clock is stored as `created_at`. |
| Inference.DirectorCandidatesMember | app/database/operations.py:319-332 | DIRECTOR_OF rows are exactly the (company, director) pairs where the director's id is in the company's directors list and differs from the company's id. |
| Inference.TypesBetween | app/database/operations.py:394-395 | `collect(distinct type(r))` over a→b: a list without repeats that holds exactly the types of the relationships from a to b, in order of first occurrence in the store. |
| Inference.CompositeCandidatesMember | app/database/operations.py:390-420 | The COMPOSITE rows are exactly the ordered user pairs with two or more types between them. Each row carries the types and the computed strength. |
| Inference.ShareholderPass | app/database/operations.py:335-387 | The shareholder detector: the patterns of every company's rows, merged in order, as far as the first `float()` failure. Each `query2` pattern carries the clock of its own statement, `clocks(c)(i)` for the i-th id of the company at store position c. Proved in ShareholderPassSpec, ShareholderWantsSound, CompaniesWantsComplete and RepeatedRecordPerStatement. |
| Inference.CompositePass | app/database/operations.py:390-420 | The composite detector: the COMPOSITE rows, all computed from the relationships before the pass, then merged. Proved in CompositeMerged. |
| Inference.RunInference | app/database/operations.py:171-192 | The nine detectors in call order, the eight MERGE passes in the order of `PASSES`. A shareholder `float()` failure raises, and then composite does not run. The shareholder statements read their own clocks. Proved in RunShape, RunCovers and RunCreatesOnly. |
| InferenceProperties.SharedAttributeMerged | app/database/operations.py:195-228 | After the pass, every pair sharing the attribute has its relationship, and the pass creates nothing else. |
| InferenceProperties.PaymentMethodMerged | app/database/operations.py:231-242 | Every pair sharing a payment method is linked, carrying the common methods, and nothing else is created. |
| InferenceProperties.LinkedMerged | app/database/operations.py:245-272 | Transactions that share a fingerprint end up linked in one direction or the other, and nothing else is created. |
| InferenceProperties.LinkEdgesSamePair | app/database/operations.py:253 | Two LINKED_TO patterns for the same unordered pair and reason match each other undirected. This needs unique transaction ids. |
| InferenceProperties.LinkedOncePerPair | app/database/operations.py:253 | The undirected MERGE creates at most one LINKED_TO per unordered pair and reason. |
| InferenceProperties.ParentChildMerged | app/database/operations.py:304-316 | Every child has PARENT_OF from its parent and SUBSIDIARY_OF to it, and nothing else is created. |
| InferenceProperties.DirectorMerged | app/database/operations.py:319-332 | Every listed director that exists as a User gets DIRECTOR_OF to the company, and nothing else is created. |
| InferenceProperties.CompositeMerged | app/database/operations.py:390-420 | Every ordered user pair with two or more types gets a COMPOSITE carrying those types, and nothing else is created. |
| InferenceProperties.AfterFirstSpec | app/database/operations.py:171-190 | After the first k passes, the old relationships are a prefix. Every pattern of those passes has a match. Every added relationship is one of their patterns. |
| InferenceProperties.AfterFirstStable | app/database/operations.py:171-190 | When every pattern already has a match, the passes change nothing. |
| InferenceProperties.PassWantsTypes | app/database/operations.py:171-190 | None of the eight passes creates a COMPOSITE or a SHAREHOLDER_OF. |
| InferenceProperties.EntryWantsSound | app/database/operations.py:363-376 | Each SHAREHOLDER_OF from a company's inner loop points from a listed id that is an existing User other than the company, to the company. |
| InferenceProperties.ShareholderWantsSound | app/database/operations.py:335-387 | Every SHAREHOLDER_OF the pass merges names an existing user, other than the company, whose id the company's text lists. |
| InferenceProperties.EntryWantsComplete | app/database/operations.py:363-376 | When every percentage parses, the inner loop does not raise. It merges SHAREHOLDER_OF for every listed id that exists and is not the company, with the clock of that id's statement. |
| InferenceProperties.CompaniesWantsComplete | app/database/operations.py:349-376 | When no company's text makes `float()` raise, the pass does not raise. |
| InferenceProperties.CompaniesWantsHas | app/database/operations.py:349-376 | When the pass does not raise, every company's patterns are among the pass's patterns. |
| InferenceProperties.CompanyWantsFromRecords | app/database/operations.py:52 | A company whose text `create_user` stored from plain records never raises. Each existing listed shareholder gets its own percentage. |
| InferenceProperties.ShareholdersFromStoredRecords | app/database/operations.py:335-387 | When every stored shareholders text came from plain records, the pass never raises. Every listed shareholder that exists (other than the company) gets SHAREHOLDER_OF with its percentage and the clock of its own statement. |
| InferenceProperties.RepeatedRecordPerStatement | app/database/operations.py:363-383 | A text listing the same record twice yields two `query2` patterns. When the two statements' clocks differ and neither pattern has a match yet, both relationships are created. When the clocks agree, one is. |
| InferenceProperties.NegativePercentageShiftsPairing | app/database/operations.py:361-365 | Ids and percentages are paired by position. When the first record's percentage is negative, the first id gets the second record's percentage and the second id gets 0.0. |
| InferenceProperties.DistinctCard | app/database/operations.py:395 | A list without repeats has as many distinct elements as entries. |
| InferenceProperties.StrengthOrderFree | app/database/operations.py:399-408 | The composite strength depends only on which types occur, not on their order in the list. |
| InferenceProperties.StrengthBounds | app/database/operations.py:399-408 | The strength is 0.2 per type plus at most 1.1, and it is not capped. Worked values: PARENT_OF+SHAREHOLDER_OF gives 0.9; three types including DIRECTOR_OF and SHAREHOLDER_OF give 1.0; all eight known types give 2.7. |
| InferenceProperties.ShareholderPassSpec | app/database/operations.py:335-387 | The shareholder pass keeps what was there as a prefix, gives every SHAREHOLDER_OF pattern a match, and appends only SHAREHOLDER_OF patterns. |
| InferenceProperties.RunShape | app/database/operations.py:171-192 | A run keeps the nodes and only appends relationships, stage by stage. It completes exactly when the shareholder pass does not raise. |
| InferenceProperties.RunCovers | app/database/operations.py:171-192 | After a run, every pattern of every pass it reached has a match. |
| InferenceProperties.RunCreatesOnly | app/database/operations.py:171-192 | A run creates nothing but patterns of the passes it reached. |
| InferenceProperties.RerunSameClock | app/database/operations.py:171-192 | A second run with the same clocks (the run clock and every shareholder statement's) adds nothing in the first nine passes. Only the composite pass can change the store. |
| InferenceProperties.NoCompositeBeforeCompositePass | app/database/operations.py:171-191 | The passes before composite never create a COMPOSITE between a pair that had none. |
| InferenceProperties.NoMatchForRecomputedComposite | app/database/operations.py:411-415 | After a composite pass in which a pair had no COMPOSITE, no relationship matches a COMPOSITE pattern whose type list contains COMPOSITE. |
| InferenceProperties.CompositeListsItself | app/database/operations.py:394-415 | After the composite pass, a linked pair lists COMPOSITE among its types, next to the earlier ones. |
| InferenceProperties.CompositePassGrows | app/database/operations.py:411-415 | A composite pattern with no match makes the pass create a relationship. |
| InferenceProperties.CompositeRerunGrows | app/database/operations.py:390-420 | Composite is not idempotent. A completed run followed by a run with the same clocks adds a new COMPOSITE for every pair the first run linked. |
| InferenceProperties.ParentOfAfterRun | app/database/operations.py:304-316 | After any run, each child has PARENT_OF with that run's clock. |
| InferenceProperties.DistinctClocksDistinctEdges | app/database/operations.py:311 | Two patterns that differ in `created_at` are matched by two different relationships. |
| InferenceProperties.LaterRunDuplicatesParentOf | app/database/operations.py:311 | A run at a later clock adds a second PARENT_OF next to the first one, because `datetime()` is part of the pattern. |
| InferenceProperties.PassPatternBeforeComposite | app/database/operations.py:171-191 | Every pattern of the eight passes has a match among the relationships the composite pass reads. |
| InferenceProperties.CompositeFromSharedContacts | app/database/operations.py:195-216 | After a completed run, two users sharing an email and a phone have a COMPOSITE that lists both types, with strength at least 0.6. |
| Shareholders.FirstDot | app/database/operations.py:365 | Gives the position of the first `.` in a text, or says there is none. |
| Shareholders.StoredShareholders | app/database/operations.py:52 | A null or empty list is stored as null; any other list is stored as its printed text. |
| Shareholders.Ids | app/database/operations.py:360 | The ids of the records, in order. |
| Shareholders.PercentageTexts | app/database/operations.py:361 | The printed percentages of the records, in order. |
| Shareholders.QuoteFreeRun | app/database/operations.py:360 | `[^']+`: the longest prefix without a quote, stopping at a quote. |
| Shareholders.NumeralRun | app/database/operations.py:361 | `[0-9.]+`: the longest prefix of digits and points. |
| Shareholders.IdMatchAt | app/database/operations.py:360 | A match of the id pattern spans the key, a non-empty group and the closing quote. |
| Shareholders.PercentageMatchAt | app/database/operations.py:361 | A match of the percentage pattern spans the key and a non-empty group. |
| Shareholders.FindIds | app/database/operations.py:360 | `re.findall(r"'id': '([^']+)'")`: a left-to-right scan that resumes after each match. The round trip over printed records is FindIdsJoined and ListTextIds. |
| Shareholders.FindPercentages | app/database/operations.py:361 | `re.findall(r"'percentage': ([0-9.]+)")`, scanned the same way. The round trip is FindPercentagesJoined and ListTextPercentages. |
| Shareholders.ParseFloat | app/database/operations.py:365 | `float()` of a `[0-9.]` run: None for text with two points or no digit, otherwise the decimal value. ParseFloatDecimal proves that it reads back a printed decimal. |
| Shareholders.FloatsSpec | app/database/operations.py:365 | `float()` is applied to each extracted text, one result per text, in order. |
| ShareholderRoundTrip.FindIdsSkip | app/database/operations.py:360 | The id scan skips text where no match can start. |
| ShareholderRoundTrip.FindIdsEntry | app/database/operations.py:360 | The id scan finds a printed record's id and nothing else in it. |
| ShareholderRoundTrip.FindPercentagesEntry | app/database/operations.py:361 | The percentage scan finds a printed record's number and nothing else in it. |
| ShareholderRoundTrip.FindIdsJoined | app/database/operations.py:360 | Scanning the printed list returns the record ids in order. |
| ShareholderRoundTrip.FindPercentagesJoined | app/database/operations.py:361 | Scanning the printed list returns the printed numbers in order. |
| ShareholderRoundTrip.ParseFloatDecimal | app/database/operations.py:365 | `float()` reads back exactly the number that was printed. |
| ShareholderRoundTrip.ListTextShape | app/database/operations.py:354 | A printed non-empty list passes the `[{` … `}]` shape test. |
| ShareholderRoundTrip.ParseStoredShareholders | app/database/operations.py:52 | Round trip for plain records. The stored text passes the shape test, the scans recover the ids and the numbers in order, and each number parses back to its value. |
| ShareholderRoundTrip.FindPercentagesNegativeEntry | app/database/operations.py:361 | The percentage scan finds nothing in a record printed with a negative percentage. |
| ShareholderRoundTrip.NegativeFirstScans | app/database/operations.py:360-361 | When the first record is negative, both ids are found but only the second number is. |
| Store.StoredUser | app/database/operations.py:9-60 | The User node carries the input's id, contacts, directors, parent and payment methods. Its shareholders text is null exactly when the input list is null or empty. |
| Store.StoredUserParses | app/database/operations.py:52 | A user created from plain shareholder records stores a text that the shareholder pass reads back. |
| Store.StoredTransaction | app/database/operations.py:63-97 | The Transaction node carries the input's id, IP address and device id. |
| Store.RelationshipProps | app/database/operations.py:284-298 | A business relationship carries `created_at`, plus `strength` and `details_str` exactly when they are non-null, and no other property. |
| Store.ParentRowsEven | app/database/operations.py:311-313 | Each parent-child row merges two patterns, so the pattern count is even. |
| Store.GraphStore.constructor | app/database/operations.py:9-60 | An empty store satisfies the uniqueness constraints. |
| Store.GraphStore.CreateUser | app/database/operations.py:9-60 | Appends the stored User. With the uniqueness constraint of init_db installed, a taken id is refused and nothing changes. Uniqueness is kept. |
| Store.GraphStore.CreateTransaction | app/database/operations.py:63-97 | With no matching sender or receiver, nothing is created. With a taken id, the uniqueness constraint of init_db refuses. Otherwise it appends the Transaction plus SENT and RECEIVED_BY. Users never change. |
| Store.GraphStore.CreateBusinessRelationship | app/database/operations.py:275-301 | CREATE, not MERGE: when both users exist, it appends a new relationship even when an equal one exists. Otherwise nothing changes. |
| Store.GraphStore.CreateSharedAttributeRelationships | app/database/operations.py:195-228 | The relationships become the MERGE of the shared-attribute rows. The count is the number of rows. |
| Store.GraphStore.CreateSharedPaymentMethodRelationships | app/database/operations.py:231-242 | The relationships become the MERGE of the payment rows. The count is the number of rows. |
| Store.GraphStore.CreateLinkedTransactionRelationships | app/database/operations.py:245-272 | The IP query is merged undirected, then the device query. Each count is its query's row count. |
| Store.GraphStore.CreateParentChildRelationships | app/database/operations.py:304-316 | Merges both patterns of every row. The count is the number of rows, half the patterns. |
| Store.GraphStore.CreateDirectorRelationships | app/database/operations.py:319-332 | Merges the director rows. The count is the number of rows. |
| Store.GraphStore.CreateShareholderRelationships | app/database/operations.py:335-387 | The nested loop over companies and extracted ids leaves the same relationships as `ShareholderPass`, each `query2` statement with its own clock. It raises exactly when some percentage fails `float()`. Otherwise the count is the number of matched rows. |
| Store.GraphStore.MergeCompanyShareholders | app/database/operations.py:363-385 | One company's inner loop: merges each id paired by position with its percentage, or 0.0 past the end, the statement for index i reading the clock `at(i)`. A record listed twice runs two statements, and the second one merges again under its own clock. It raises at the first unparsable percentage. |
| Store.GraphStore.MergeShareholder | app/database/operations.py:367-385 | `query2`: it matches exactly when the shareholder exists and is not the company, and then merges SHAREHOLDER_OF. |
| Store.GraphStore.CreateCompositeRelationships | app/database/operations.py:390-420 | Merges the COMPOSITE rows, which are computed before any of them is merged. The count is the number of rows. |
| Store.GraphStore.DetectAndCreateRelationships | app/database/operations.py:171-192 | The store after the run is `RunInference` of the store before it. The run completes exactly when the shareholder pass does not raise. |
| Paths.NeighboursSpec | app/services/analytics.py:31 | One search step reaches exactly the nodes joined by an allowed relationship, in either direction, to the current set. |
| Paths.BallStable | app/services/analytics.py:31 | Once a search round adds nothing, no later round adds anything. |
| Paths.BallGrows | app/services/analytics.py:31 | The reached set only grows with the radius. |
| Paths.DistanceSpec | app/services/analytics.py:31 | The distance is the least radius whose ball holds the target. None means no ball ever holds it. |
| Paths.FirstLink | app/services/analytics.py:31 | Finds a stored, allowed relationship joining the target to the previous ring, or proves there is none. |
| Paths.Trace | app/services/analytics.py:31 | A node in the ball of radius k is the end of a walk of at most k hops. |
| Paths.WalkInBall | app/services/analytics.py:31 | The end of a walk of n hops lies in the ball of radius n. |
| Paths.BallIsReach | app/services/analytics.py:31 | t is in the ball of radius k exactly when a walk of at most k hops leads to it. |
| Paths.ShortestWalk | app/services/analytics.py:31 | Returns a walk no longer than any other walk between the two nodes, or None exactly when no walk exists. |
| Paths.Candidates | app/services/analytics.py:30 | `(source {id: $source_id})` without a label matches exactly the Users and Transactions with that id. |
| Paths.FirstPathFrom | app/services/analytics.py:29-33 | The first target in row order that has a path, with its shortest walk, or None when no target has one. |
| Paths.FirstPath | app/services/analytics.py:29-49 | The first row that has a path. Its ends are candidates and its walk is shortest. None means no candidate pair is connected. |
| Paths.Views | app/services/analytics.py:61-67 | One reported relationship per path relationship, in order, giving its type, stored start id, stored end id and properties. |
| Paths.FindShortestPath | app/services/analytics.py:9-74 | find_shortest_path: a failed query when the same existing id is given twice, the not-found message when no candidate pair is connected, otherwise the first connected pair's shortest path with its length, nodes and relationships. Proved in QueryFailedCase, NotFoundCase, FoundEnds, FoundRelationships, FoundIsShortest and FoundWhenConnected. |
| Paths.QueryFailedCase | app/services/analytics.py:29-40 | The query fails exactly when the same existing id is given for both ends. |
| Paths.NotFoundCase | app/services/analytics.py:42-46 | Not found carries the exact message, and then no walk joins any source candidate to any target candidate. |
| Paths.FoundEnds | app/services/analytics.py:49-74 | `path_length` equals the relationship count, which is one less than the node count. The ends are nodes with the requested ids, and they are distinct. |
| Paths.FoundRelationships | app/services/analytics.py:53-74 | Each reported relationship joins consecutive reported nodes, is a stored relationship and has an allowed type. An absent or empty filter allows every type. |
| Paths.ReportedWalk | app/services/analytics.py:49-74 | The response is built from a walk between its end nodes. |
| Paths.FoundIsShortest | app/services/analytics.py:31 | No walk between the reported ends is shorter than `path_length`. |
| Paths.FoundWhenConnected | app/services/analytics.py:29-46 | When two different ids name nodes joined by some walk, a path is found. |
| Clusters.NearIsPath | app/services/analytics.py:93-94 | For two different transactions, being near means a path of 1 to `max_distance` hops joins them. |
| Clusters.ConnectedSpec | app/services/analytics.py:91-97 | `collect(DISTINCT t2)` holds exactly the other transactions within reach, without repeats when ids are unique. |
| Clusters.Records | app/services/analytics.py:89-99 | The clustering query's rows in transaction order: a row for each transaction with at least one and at least `min_cluster_size - 1` connected transactions. Proved in RecordsSpec and RecordsHas. |
| Clusters.RecordsSpec | app/services/analytics.py:89-99 | A row comes from an existing transaction, carries its near transactions, and has at least one and at least `min_cluster_size - 1` of them. |
| Clusters.ClusterTransactions | app/services/analytics.py:102-135 | The loop returns exactly `Form` of the query rows with nothing processed yet. |
| Clusters.Form | app/services/analytics.py:102-135 | The clusters the loop builds: rows whose transaction is already processed are skipped; otherwise the row becomes a cluster and marks its center and members processed. Proved in FormFrom, CentersFresh, FormCovers and FormAllTaken. |
| Clusters.FormFrom | app/services/analytics.py:108-133 | Every cluster is built from one query row. |
| Clusters.ClusterRow | app/services/analytics.py:108-133 | Names the row each cluster came from. |
| Clusters.ClusterSize | app/services/analytics.py:117-121 | `size` equals the number of listed transactions. It is at least `min_cluster_size` and at least 2, the center is listed first, and the center exists. |
| Clusters.ClusterMembers | app/services/analytics.py:123-127 | Every other member is an existing transaction near the center. Members do not repeat when ids are unique. |
| Clusters.CentersFresh | app/services/analytics.py:112-114 | No center was already processed, and no later cluster's center is a member of an earlier cluster. |
| Clusters.FormCovers | app/services/analytics.py:108-133 | Every row's transaction was processed beforehand or is listed in some cluster, as center or member. |
| Clusters.RecordsHas | app/services/analytics.py:89-99 | A transaction with at least one and at least `min_cluster_size - 1` connected transactions yields a row. |
| Clusters.QualifyingClustered | app/services/analytics.py:89-135 | Every transaction with at least one and at least `min_cluster_size - 1` transactions within `max_distance` hops ends up in some cluster, as center or member. |
| Clusters.FormAllTaken | app/services/analytics.py:112-114 | Rows whose transactions are all processed yield no clusters. |
| Clusters.ConnectedKeepsAll | app/services/analytics.py:91-97 | When every transaction is near, all of them are collected. |
| Clusters.OneClusterWhenAllNear | app/services/analytics.py:89-135 | With unique ids, when all transactions are pairwise near, there is exactly one cluster and it holds them all. |
| Metrics.CompanyCountBound | app/services/analytics.py:150-156 | The company count is at most the user count, and equal exactly when every user is a company. |
| Metrics.UndirectedCountSpec | app/services/analytics.py:163-170 | The undirected match counts a relationship twice and a self-loop once. |
| Metrics.CountTypeSpec | app/services/analytics.py:163-170 | A type is counted exactly when some relationship has it. |
| Metrics.UserEntriesSpec | app/services/analytics.py:173-176 | One entry per User, carrying its degree. |
| Metrics.TransactionEntriesSpec | app/services/analytics.py:173-176 | One entry per Transaction, carrying its degree. |
| Metrics.InsertKeeps | app/services/analytics.py:177 | Insertion keeps every entry. |
| Metrics.InsertSorted | app/services/analytics.py:177 | Insertion keeps the order non-increasing. |
| Metrics.RankSpec | app/services/analytics.py:177 | `ORDER BY connection_count DESC` is a permutation sorted by non-increasing count. |
| Metrics.UserNameSpec | app/services/analytics.py:179 | `n.name` is defined exactly for Users, and is that user's name. |
| Metrics.TransactionNameIsNull | app/services/analytics.py:186 | As written, a Transaction among the most connected is reported with a null name, never its id. |
| Metrics.SummaryName | app/services/analytics.py:183-191 | Corrected: a User is reported with its name, and a Transaction with its id as the name. |
| Metrics.Summaries | app/services/analytics.py:183-191 | One entry per row, in order. |
| Metrics.EmptyGraphMetrics | app/services/analytics.py:145-201 | An empty graph reports zero counts, no types and no nodes. |
| Metrics.CountsOrdered | app/services/analytics.py:146-158 | company count ≤ user count ≤ total nodes, and total nodes = users + transactions. |
| Metrics.RelationshipCounts | app/services/analytics.py:146-170 | Covers both metric queries: the relationship count is the number of relationships; a type is a key exactly when some relationship has it; each type's count is twice its relationships minus its self-loops. |
| Metrics.EntriesSpec | app/services/analytics.py:173-176 | One entry per node, carrying its degree. |
| Metrics.TopEntries | app/services/analytics.py:173-178 | The degree entries ranked by non-increasing count, cut to the first five. Proved in MostConnectedOrder and MostConnectedBeatsRest. |
| Metrics.GetGraphMetrics | app/services/analytics.py:138-201 | get_graph_metrics: the node, user, transaction and company counts, the relationship count and per-type counts, and the top five nodes with the corrected name. Proved in CountsOrdered, RelationshipCounts, MostConnectedReported and EmptyGraphMetrics. |
| Metrics.MostConnectedOrder | app/services/analytics.py:173-179 | The top list has min(5, number of nodes) entries, in non-increasing order of degree. |
| Metrics.MostConnectedBeatsRest | app/services/analytics.py:177-178 | No node left out of the top five has a higher count than one in it. |
| Metrics.MostConnectedReported | app/services/analytics.py:183-200 | Each reported entry gives the node's id, count and label, in rank order. |

## Left out

- Properties that no detector or query reads are not modelled: amounts, currency, timestamps, status, metadata, company fields other than `entity_type`, `directors`, `shareholders` and `parent_entity_id`, and subsidiaries. Identity and the fields the detectors and queries read are modelled, including the user's name that the metrics query reads.
- The ids of shareholder records must be printable ASCII without a quote or backslash, and their percentages non-negative positional numbers (`PlainRecords`). For other records, Python's `repr` escapes or exponent notation are not modelled, except the negative case in `NegativePercentageShiftsPairing`.
- Store.GraphStore.CreateShareholderRelationships applies `float()` to every extracted percentage text before the loop, not as each row is reached. `float()` depends on its text alone, so the relationships merged and the point where it raises are the same.
- Store.GraphStore.DetectAndCreateRelationships uses one clock value `now` for the single-statement detectors (parent-child, director and composite). In the database each of those statements reads its own `datetime()`. Each of them merges only its own relationship type and composite does not read `created_at`, so within one run sharing the clock changes nothing. The shareholder statements each take their own clock from `clocks`. The model does not say how clocks of successive statements relate, since it does not read the database clock.
- Composite strength is kept in tenths, as an exact value. Floating-point rounding of `rel_count * 0.2 + …` is not modelled.
- Python `float()` is modelled on the `[0-9.]` texts the scan can return (digits with at most one point). Its other accepted forms cannot reach it from that scan.
- Store.GraphStore.CreateBusinessRelationship takes the relationship type as given. The f-string puts it into the query text, so a type that is not a valid Cypher identifier would make the query fail. That error path is not modelled.
- The node and relationship serialisation (`serialize_neo4j_object`) is not modelled: the model reports node identities, and relationship properties as the store holds them. The getters (`get_all_users`, `get_user_relationships`, …), the HTTP layer and the connection layer are not part of this model.
- Paths.FindShortestPath: when several shortest paths exist, the model returns the one its search traces; the database may return another of equal length. The order of candidate rows is taken as users first, then transactions.
- Paths.FindShortestPath: a walk may reuse a relationship, whereas Cypher requires paths with distinct relationships. A shortest walk never repeats a relationship, so lengths and existence agree, but that equivalence is not proved.
- Clusters.Near: nearness is a walk of 1 to `max_distance` hops, whereas `[*1..max_distance]` matches paths with distinct relationships. For two different transactions a shortest walk is such a path, so the two agree, but that equivalence is not proved.
- Paths.FindShortestPath: a same-id query with an existing id is modelled as a failed query. The database refuses `shortestPath` whose start and end node are the same; the Python call then raises.
- Inference.TypesBetween: `collect(distinct type(r1))` is modelled in order of first occurrence in the store. The database leaves that order unspecified. The list is part of the COMPOSITE MERGE key. The order matters only where a recomputed list is compared with an earlier list that already contains COMPOSITE, as in a third run. No lemma here depends on it. CompositeRerunGrows holds for any order, because the recomputed list contains COMPOSITE and the earlier one does not. RerunSameClock says nothing about type lists.
- Clusters.ConnectedSpec: `collect(DISTINCT t2)` is modelled in store order of the transactions. The database order is unspecified.
- Clusters.ClusterTransactions: the query's row order is taken as store order.
- Metrics.TopEntries: for nodes with equal counts, the model keeps users before transactions, in store order. `ORDER BY … LIMIT 5` leaves that order to the database.
- Metrics.GetGraphMetrics: reports the corrected name of the Findings row, a Transaction's id in place of its missing name. The code as written reports a null name there; that behaviour is `SummariseAsWritten`, shown by TransactionNameIsNull.
- Metrics.RelationshipCounts: the per-type count follows the undirected match (each relationship twice, a self-loop once). The ordering of the relationship-type query is irrelevant once it becomes a dictionary.
- Store.GraphStore.CreateUser and Store.GraphStore.CreateTransaction assume the uniqueness constraints of `create_constraints` in app/utils/init_db.py are installed. The application's startup does not install them, and `create_user` does not check ids itself. Without them, a second User or Transaction with a taken id is created. Later `MATCH` by that id then yields several rows, one `CREATE` each. The model identifies nodes by id, so it does not represent such duplicates.
- Errors of the database driver, concurrency between requests and the network are not modelled.

## Findings

| source | as written | input that shows it | evidently intended | confidence | as-written member | corrected member |
|---|---|---|---|---|---|---|
| app/services/analytics.py:186 | `record.get("node_name", record["node_id"])`: the query always returns the `node_name` column, so the default is never used. A Transaction has no `name`, so its entry is reported with a null name. | Two users and one transaction between them: three nodes, so the Transaction is among the five reported. | A node without a name is reported under its id. | not executed | Metrics.TransactionNameIsNull | Metrics.SummaryName |
