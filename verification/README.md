# V-NDN: verified models of the daemon's five hard parts

V-NDN is a Named Data Networking daemon for vehicular networks. This project models five of
its components in Dafny and proves what they promise over every input and every run. All of
them share one notion of a name, a sequence of components, each a string of bytes.

1. **Content store** (`LruCache`, `LruRuns`, `ContentStore`). The name trie with parent
   pointers and the recency list, as heap objects changed in place. `Add` and `Lookup` are
   proved to refine a simple cache of entries; over whole runs that cache holds exactly the
   most recently used entries, in order of last use.
2. **Forwarding engine** (`FaceRanking`, `Engine`, `EngineInvariants`, `EngineFacts`,
   `EngineDelivery`, `EngineOutcomes`, `EngineForwarding`, `EngineAccounts`, `Forwarder`,
   `RateLimit`). FIB, PIT, content store and faces as one state machine, the class `Protocol`
   whose handlers are proved to take its steps, what each step sends and changes, and what
   every run keeps: no stale references, no nonce propagated twice for one PIT entry, and an
   exact account of every interest, which is kept for its lifetime unless something takes it.
3. **Retransmission scheduler** (`PacketStorage`, `NomPolicy`, `NomRuns`, `NomFacts`). The
   table of pending packets with its three indices, the policy that sends them, and its runs:
   round-robin fairness, eight transmissions and no more, draining.
4. **ccnb codec** (`PacketBuffer`, `BlockHeader`, `CcnbTree`, `CcnbParser`, `Decimal`,
   `Timestamp`, `Interest`, `InterestCodec`, `InterestVisitor`, `ContentPacket`). Writer, size
   predictor, recursive-descent parser and visitors, with the round trips between them.
5. **Packet ring** (`Ring`). The 100 shared slots between two threads, as interleaved steps
   of one writer and one reader.

Where the source works in place, so does the model: the trie, the buffers, the tables of the
daemon, the packet table and the parser's cursor and header objects are classes whose methods
carry loops, and each method is tied to a specification function about which the properties
are proved as lemmas. The two threads of the ring are one step function over the state they
share.

## Where the code departs from its documentation

The model follows the code. The departures that show in a contract:

- `ContentStore::Add` is documented to return true when an existing entry is updated. It
  returns true when a new entry was stored, and never updates.
- A full ring is documented to discard the new message. The writer returns holding the
  semaphore of the slot that is to be read next, so that neither side gets any further
  (`Ring.OverflowIsFinal`), and there are runs in which that happens (`Ring.CanOverflow`).
- `LLNomPolicy` is documented to reject a packet only when it is pending already. A content
  is also rejected when a different pending content has the same key string, which takes a
  slash inside a component (`NomFacts.ContentPurgesAndIsStored`, `NomFacts.SlashRefuses`). An
  interest is also rejected when a content of its name is pending
  (`NomFacts.InterestIsStoredIff`).
- Purging on a content removes pending contents as well as pending interests. A content heard
  from a neighbour that is too near to acknowledge it therefore deletes the pending content
  all the same (`NomFacts.AcknowledgementMattersIff`).
- The cache lookup is documented to find a name with at least the key as its prefix. It can
  answer with a shorter name (`LruCache.AnswerExtendsIff`).
- An interest for a name is listed under a shorter pending name if there is one. Data of its
  own name is then cached as unsolicited and sent to nobody
  (`EngineDelivery.ShadowedInterestIsNotAnswered`, `EngineDelivery.CanBeShadowed`).
- A comment in the daemon says that satisfied PIT entries are kept for a while; they are
  removed at once. Flooding also sends back to the face the interest came from
  (`EngineFacts.SendsBackIff`, `EngineFacts.CanSendBack`).
- The timestamp encoder sizes itself from the seconds within the minute and the estimate from
  all seconds. The exact condition under which they agree and under which a duration
  survives is proved (`Timestamp.SizePredicted`, `Timestamp.RoundTripBound`,
  `Timestamp.MinuteIsLost`), and with it
  exactly which interests survive (`Interest.WholeSecondInterestRoundTrip`).
- Removing a route through the management interface does not trim the PIT and can leave a
  pointer to an erased FIB entry (`EngineFacts.UnregisterStaleIff`,
  `EngineFacts.UnregisterCanGoStale`).
- An interest without a lifetime gets the default one only if it makes a PIT entry; it does
  not extend a pending entry by it (`EngineAccounts.DefaultLifetimeIff`).
- The bucket is documented to leak by the rate every second. Of the time since the last leak
  only the seconds within the minute count, so it leaks what it should exactly in the first
  minute (`RateLimit.LeakIsDueIff`, `RateLimit.LevelIsDueIff`).

## Model

| member | source | states |
|---|---|---|
| `LruRuns.RunsAreLru` | utils/lru-policy.h:60-89 | over every run of adds and lookups from the empty store the stored entries are the most recently used ones, in order of last use, never more than the capacity, and no name twice |
| `LruRuns.StepKeepsMostRecent` | utils/trie-with-policy.h:53-72 | one add, hit or miss keeps that; what is forgotten was last used before everything kept |
| `LruCache.AnswerExtendsIff` | utils/trie-with-policy.h:132-155 | an answer of the store extends the key exactly when the key itself is stored or no shorter stored name is a prefix of it |
| `ContentStore.Store.TrieInsert` | utils/trie.h:183-214 | walks or builds the path of a name; returns the only node of that name, says whether it was empty, changes no other payload and creates only empty nodes besides it |
| `ContentStore.Store.AddChild` | utils/trie.h:196-206 | a new empty node hangs under its parent by its own key and is the one node that may be childless and empty |
| `ContentStore.Store.Prune` | utils/trie.h:228-241 | removing dead branches upward ends with parent and child links agreeing and no dead branch, and removes no node that has a payload |
| `ContentStore.Store.EraseNode` | utils/trie-with-policy.h:82-88 | erasing a listed node takes out that list element only and frees no other node with a payload |
| `ContentStore.Store.Evict` | utils/lru-policy.h:68-76 | eviction takes the first of the list and keeps every other payload node, also one just inserted and not yet listed |
| `ContentStore.Store.PolicyInsert` | utils/lru-policy.h:68-76 | evicts exactly when full, then lists the new node, which survives; the store is valid again |
| `ContentStore.Store.UniqueNames` | utils/trie.h:188-209 | in a linked trie two nodes with the same path are the same node |
| `ContentStore.Store.Add` | daemon/cs/content-store-impl.h:83-91 | true exactly when the name was absent; then the least recently used entry goes if the store is full and the new one is appended; a present name changes nothing |
| `ContentStore.Store.Find` | utils/trie.h:255-275 | the deepest payload node on the way, whether the whole key was matched, and where the walk stopped |
| `ContentStore.Store.FindAny` | utils/trie.h:281-298 | a node with a payload at or below the given one whenever there is one |
| `ContentStore.Store.NodesAreStoredPrefixes` | utils/trie.h:183-241 | a trie node other than the root exists for a name exactly when that name is a prefix of a stored one |
| `ContentStore.Store.DeepestPrefixMatch` | utils/trie-with-policy.h:135-155 | misses exactly when no stored name extends the key; on a hit the answer is the longest stored prefix if there is one, else a strict extension, and only it moves to the recent end |
| `ContentStore.Store.Lookup` | daemon/cs/content-store-impl.h:64-81 | the same for the public lookup, with the entry returned |
| `ContentStore.Store.LongestPrefixMatch` | utils/trie-with-policy.h:111-120 | finds the longest stored prefix of a key, exactly when there is one, and uses it |
| `ContentStore.Store.Erase` | utils/trie-with-policy.h:71-88 | removes exactly the entry of that name |
| `FaceRanking.StatusKeepsRanked` | daemon/ndn-fib.cc:56-72 | a status update keeps the records ranked and faces distinct and changes that record's status only |
| `FaceRanking.CostKeepsRanked` | daemon/ndn-fib.cc:74-88 | a new face starts yellow, a known one keeps its status; the ranking holds |
| `FaceRanking.RemovalKeepsRanked` | daemon/ndn-fib.h:195-201 | removing a face keeps the ranking and all other records |
| `FaceRanking.StatusThenCost` | daemon/ndn-fib.h:129-136 | in a ranking better status comes first, and of faces of one status the cheaper one |
| `FaceRanking.GreenPrefix` | daemon/ndn-fib.h:121-133 | green faces form a prefix of the ranking |
| `FaceRanking.RankIsNthBest` | daemon/ndn-fib.cc:90-97 | the record at position k has at most k better ones and more than k that are no worse |
| `FaceRanking.FaceIndex.UpdateStatus` | daemon/ndn-fib.cc:56-72 | the position index follows the metric index after a status update |
| `FaceRanking.FaceIndex.AddOrUpdateRoutingMetric` | daemon/ndn-fib.cc:74-88 | the same after a cost update or a new face |
| `FaceRanking.FaceIndex.RemoveFace` | daemon/ndn-fib.h:195-201 | the same after a removal, which does not rearrange |
| `FaceRanking.FaceIndex.FindBestCandidate` | daemon/ndn-fib.cc:90-97 | fails exactly without faces, otherwise the (skip mod n)th best face |
| `Engine.LongestMatch` | daemon/pit/ndn-pit.cc:128-145 | the longest prefix of a name among the keys of a table, if there is one |
| `EngineInvariants.RunsKeepInv` | daemon/ndn-l3-protocol.cc:87-129 | in every reachable state data sent on a face plus interests pending on it never exceed interests received on it; every face in a table is registered, every FIB entry has a face and is ranked, every pointer to a FIB entry is live; no PIT entry was propagated twice for one nonce |
| `EngineInvariants.StepKeepsInv` | daemon/ndn-l3-protocol.cc:148-182 | every enabled step keeps those invariants |
| `EngineInvariants.InterestKeepsInv` | daemon/ndn-l3-protocol.cc:339-409 | an interest, answered from the store, suppressed, propagated or given up, keeps them |
| `EngineInvariants.ReceiveKeepsInv` | daemon/ndn-l3-protocol.cc:278-304 | listing the face as incoming uses up the interest just received |
| `EngineInvariants.NotePropagated` | daemon/ndn-l3-protocol.cc:395-405 | a propagation is the first for its entry and nonce |
| `EngineInvariants.LookupKeepsInv` | daemon/pit/ndn-pit.cc:100-126 | after the lookup the entry exists and has seen the nonce; if it had not before, no propagation for that pair is on record |
| `EngineInvariants.SatisfyKeepsInv` | daemon/ndn-l3-protocol.cc:433-443 | answering the incoming faces and dropping the entry keeps the invariants; what is sent is stated in `EngineOutcomes` |
| `EngineInvariants.DataKeepsInv` | daemon/ndn-l3-protocol.cc:446-497 | data keeps the invariants, solicited or not |
| `EngineInvariants.NackKeepsInv` | daemon/ndn-l3-protocol.cc:184-256 | an incoming nack keeps them |
| `EngineInvariants.TrimKeepsInv` | daemon/ndn-l3-protocol.cc:96-115 | trimming leaves no trace of the face in the PIT and no entry whose route goes through it alone |
| `EngineInvariants.RemoveFaceKeepsInv` | daemon/ndn-l3-protocol.cc:117-129 | removing a face, trimming first, keeps the invariants |
| `EngineInvariants.RegisterKeepsInv` | daemon/ndn-fib.cc:136-154 | adding or updating a route keeps them |
| `EngineInvariants.ReapKeepsInv` | daemon/pit/ndn-pit.cc:61-74 | so does dropping expired entries |
| `EngineFacts.FirstGreenIsComplete` | daemon/ndn-forwarding-strategy.cc:59-109 | stopping at the first face that is not green loses nothing: the loop fails exactly when no face is eligible and never picks an incoming face |
| `EngineFacts.FloodSendsToAllowed` | daemon/ndn-flooding-strategy.cc:64-100 | flooding sends once per candidate below its limit and marks exactly those faces as outgoing |
| `EngineFacts.PropagationFailsOnlyWithoutFaces` | daemon/ndn-flooding-strategy.cc:48-100 | an interest is given up exactly when no green face is eligible and no candidate is below its limit |
| `EngineFacts.SendsBackIff` | daemon/ndn-flooding-strategy.cc:48-100 | an interest goes back to a face it came from exactly when no green face is eligible and that face is a candidate below its limit |
| `EngineFacts.CanSendBack` | daemon/ndn-flooding-strategy.cc:64-100 | for any face there is a run in which that happens |
| `EngineFacts.UnregisterStaleIff` | daemon/ndn-fib.cc:167-183 | removing a route leaves a stale pointer exactly when its last face goes and a PIT entry still uses it |
| `EngineFacts.UnregisterCanGoStale` | daemon/ndn-management.cc:72-90 | for any name and face there is a run after which that happens |
| `EngineFacts.TrimmingMustComeFirst` | daemon/ndn-l3-protocol.cc:117-122 | trimming after the FIB removal would be harmless exactly when no entry's only route goes through the face |
| `EngineDelivery.RunsKeepListed` | daemon/pit/ndn-pit.cc:100-126 | in every reachable state every incoming face of a PIT entry stands for an interest the entry has taken, and every interest it has taken extends its name |
| `EngineDelivery.DataAnswersIff` | daemon/ndn-l3-protocol.cc:433-497 | data sent on an incoming face of the entry it matches answers an interest taken from that face exactly when that very name was asked for there |
| `EngineDelivery.ShadowedInterestIsNotAnswered` | daemon/ndn-l3-protocol.cc:411-431 | an interest that misses the store gets no entry of its own exactly when a shorter name is pending and its own is not; then data of its name is cached and sent to nobody |
| `EngineDelivery.CanBeShadowed` | daemon/pit/ndn-pit.cc:128-145 | for any name and proper prefix there is a run in which both are asked for, the data for the longer arrives, and nothing is sent |
| `EngineOutcomes.SatisfyDelivers` | daemon/ndn-l3-protocol.cc:438-441 | every incoming face of the entry gets the packet exactly once and nothing else is sent |
| `EngineOutcomes.StoreAnswersIff` | utils/trie-with-policy.h:132-155 | the store answers an interest exactly if it holds a name that extends the one asked for, and with that very name if it holds it |
| `EngineOutcomes.HitDelivers` | daemon/ndn-l3-protocol.cc:323-337 | an interest that the store answers: each face waiting on the entry that takes it, and the face it came from, gets the stored packet exactly once; that entry is gone, all others, the routes and the faces are as before, and the packet is the most recently used |
| `EngineOutcomes.ArrivalOutcome` | daemon/pit/ndn-pit.cc:100-126 | the entry of the longest pending prefix takes an interest, or a new one whose route is the longest registered prefix of the name and whose end is its lifetime or the default away; it then lists the face and the nonce and ends no earlier than the interest's lifetime |
| `EngineOutcomes.UpdateRecolours` | daemon/ndn-fib.cc:56-72 | recolouring a face in an entry's route changes that one record and no other route |
| `EngineOutcomes.UnsolicitedDataIsCached` | daemon/ndn-l3-protocol.cc:411-431 | data nobody waits for under its own name changes the store only, and is stored |
| `EngineOutcomes.UnaskedDataIsDropped` | daemon/ndn-l3-protocol.cc:456-461 | data for a pending name from a face that was not asked changes nothing |
| `EngineOutcomes.AskedDataIsDelivered` | daemon/ndn-l3-protocol.cc:446-497 | data from a face that was asked is stored, sent exactly once on each waiting face and on no other, turns the face green in the route, and ends the entry and no other |
| `EngineForwarding.CandidatesAreNotRed` | daemon/ndn-flooding-strategy.cc:64-81 | flooding considers exactly the faces of the route that are not red |
| `EngineForwarding.FirstGreenIsBest` | daemon/ndn-forwarding-strategy.cc:59-109 | the face chosen is the first in rank that is green, not waiting, below its limit and has retransmissions left |
| `EngineForwarding.FloodOutcome` | daemon/ndn-flooding-strategy.cc:83-97 | flooding sends on each face as often as its turns allow, counts these transmissions and takes the faces out of vain; it sends something exactly if some turn is allowed |
| `EngineForwarding.ForwardOutcome` | daemon/ndn-l3-protocol.cc:499-529 | an interest goes out once on the best usable face, else wherever flooding may send, else it is given up: nothing is sent, the entry has no faces left and ends after the pruning time |
| `EngineForwarding.MissOutcome` | daemon/ndn-l3-protocol.cc:339-409 | an interest that the store does not answer is listed; with a nonce already seen nothing is sent, otherwise it is forwarded or given up as above; no other entry, no route and no store entry changes |
| `EngineForwarding.StrayNackOutcome` | daemon/ndn-l3-protocol.cc:190-204 | a nack for an interest that was not sent on the face sends nothing and changes no route; the entry that takes it remembers the nonce |
| `EngineForwarding.NackOutcome` | daemon/ndn-l3-protocol.cc:201-256 | a nack for an interest sent on the face marks it in vain and yellow and, for a give-up nack, stops its own wait; the interest is forwarded again or given up exactly if somebody still waits and every other face asked is in vain, and otherwise nothing is sent |
| `EngineForwarding.DropFaceOutcome` | daemon/ndn-l3-protocol.cc:96-129 | when a face goes, exactly the entries without another route are dropped, every other entry forgets that face only, and exactly the routes with another face stay, without it |
| `EngineForwarding.RegisterOutcome` | daemon/ndn-fib.cc:136-154 | a registered route gives the face its cost, with its old status or yellow, and leaves the prefix's other faces and all other prefixes alone |
| `EngineForwarding.ReapOutcome` | daemon/pit/ndn-pit.cc:61-74 | after the timer exactly the entries that are not due are left, unchanged |
| `EngineAccounts.WaitsAfterIff` | daemon/ndn-l3-protocol.cc:184-547 | a step ends a face's wait on an entry exactly by data for it, a give-up, the face's own give-up nack, the loss of a face or expiry; it begins one exactly by listing an interest from the face |
| `EngineAccounts.DataGoesOutWhenDue` | daemon/ndn-l3-protocol.cc:433-443 | a step sends data on a face exactly when it answers an entry on which the face waits or an interest from it, once, and with the packet of the answer |
| `EngineAccounts.WaitsOrLeaves` | daemon/ndn-l3-protocol.cc:184-547 | in every run a face that waits on an entry waits on the same entry ever after, unless at some step it leaves by one of those causes |
| `EngineAccounts.ListedForItsLease` | daemon/ndn-l3-protocol.cc:278-304 | an interest that misses the store and is not given up at once is listed, and its entry ends no earlier than its lifetime, or the default one if it made the entry without one |
| `EngineAccounts.InterestIsKept` | daemon/pit/ndn-pit.cc:61-74 | in every run such an interest stays listed until that time, as long as no data, give-up, own give-up nack or loss of a face takes it and no timer fires at that time or later |
| `EngineAccounts.DefaultLifetimeIff` | daemon/pit/ndn-pit.cc:110-119 | an interest without a lifetime gets the default one exactly if it makes its entry or the entry lasts that long anyway |
| `EngineAccounts.LedgerStep` | daemon/ndn-l3-protocol.cc:148-547 | in each step the interests received on a face are the data sent on it, the waits added less those ended, the waits ended without data, and the interests that began no wait |
| `EngineAccounts.LedgerBalances` | daemon/ndn-l3-protocol.cc:87-547 | in every state of every run, on every face, interests received equal data sent plus waits going on plus waits ended without data plus interests that began no wait |
| `Forwarder.Protocol.LongestPrefix` | daemon/ndn-fib.cc:108-125 | the prefix loop finds the longest match |
| `Forwarder.Protocol.LookupPit` | daemon/pit/ndn-pit.cc:100-126 | finds or makes the entry, reports new and duplicate, and records the nonce |
| `Forwarder.Protocol.SendInterest` | daemon/pit/ndn-pit-entry.cc:81-94 | sends and records the outgoing face and nothing else; a new face starts at no retransmission, a repeated one counts one more, and either is no longer in vain |
| `Forwarder.Protocol.PropagateViaGreen` | daemon/ndn-forwarding-strategy.cc:59-109 | the green loop sends on the first eligible green face or changes nothing |
| `Forwarder.Protocol.FloodTo` | daemon/ndn-flooding-strategy.cc:83-97 | the flooding loop and its count |
| `Forwarder.Protocol.PropagateInterest` | daemon/ndn-flooding-strategy.cc:48-100 | the strategy as a whole is the specified one |
| `Forwarder.Protocol.GiveUpInterest` | daemon/ndn-l3-protocol.cc:499-529 | clears both face sets and sets the pruning timeout |
| `Forwarder.Protocol.SatisfyPendingInterests` | daemon/ndn-l3-protocol.cc:433-443 | sends the data on every incoming face exactly once and on no other, and removes that entry only |
| `Forwarder.Protocol.OnInterestPacket` | daemon/ndn-l3-protocol.cc:339-409 | over the mutable tables and the trie store, an interest takes the specified step with a legal answer of the store, sends a stored packet exactly once on each face waiting for it, and keeps all invariants |
| `Forwarder.Protocol.OnNackPacket` | daemon/ndn-l3-protocol.cc:184-256 | an incoming nack takes the step that `EngineForwarding.NackOutcome` and `EngineForwarding.StrayNackOutcome` describe |
| `Forwarder.Protocol.AreAllInVain` | daemon/pit/ndn-pit-entry.cc:116-124 | true exactly when every outgoing face is in vain |
| `Forwarder.Protocol.OnDataPacket` | daemon/ndn-l3-protocol.cc:446-497 | data takes the specified step: unsolicited data without an entry is cached, data from a face not asked is dropped, other data is cached and sent exactly once on each waiting face |
| `Forwarder.Protocol.RegisterFace` | daemon/ndn-l3-protocol.cc:87-94 | a face is appended |
| `Forwarder.Protocol.TrimPitEntries` | daemon/ndn-l3-protocol.cc:96-115 | the two loops take the face out of every entry and erase those that would lose their route |
| `Forwarder.Protocol.RemoveRoute` | daemon/ndn-fib.cc:156-165 | the face leaves one FIB entry, which is erased when it was the last |
| `Forwarder.Protocol.RemoveFromAll` | daemon/ndn-fib.cc:185-191 | the face leaves every FIB entry and empty entries go |
| `Forwarder.Protocol.UnregisterFace` | daemon/ndn-l3-protocol.cc:117-129 | trim, remove from the FIB, forget the face |
| `Forwarder.Protocol.RegisterRoute` | daemon/ndn-fib.cc:136-154 | adds or updates a route |
| `Forwarder.Protocol.ReapPit` | daemon/ndn-l3-protocol.cc:531-547 | after reaping exactly the entries that have not expired are left |
| `Forwarder.Protocol.CleanExpired` | daemon/pit/ndn-pit.cc:61-74 | erasing from the front of the expiry order until the first live entry removes every expired one and leaves all others unchanged |
| `RateLimit.Face.LeakBucket` | daemon/ndn-face.cc:113-128 | the leak in place is the specified one |
| `RateLimit.Face.IsBelowLimit` | daemon/ndn-face.cc:65-81 | asking leaks, then allows the interest exactly if there is no limit or room for one more, and fills by one if there is a limit |
| `RateLimit.Conservation` | daemon/ndn-face.cc:65-128 | over any run from any state of a limited face, whatever the clock does, what was sent equals the rise of the bucket plus what leaked, and no more leaks than the rate times the time passed |
| `RateLimit.RateIsBounded` | daemon/ndn-face.cc:65-128 | a limited face never sends more than its free capacity plus rate times the time up to the latest clock reading |
| `RateLimit.NewFaceIsBounded` | daemon/ndn-face.cc:43-52 | the same for a new face, counting from the first reading of the clock |
| `RateLimit.UnlimitedMaySend` | daemon/ndn-face.cc:65-81 | a face without a limit, as faces are created, may send every interest |
| `RateLimit.RoomMayBeUsed` | daemon/ndn-face.cc:65-81 | a limited face may send as many interests as its bucket has room for, whatever the clock does |
| `RateLimit.ReadingForgetsNothing` | daemon/ndn-face.cc:113-128 | a reading of the clock at which nothing leaks yet takes nothing from a later leak, and after a leak the time counts from it |
| `RateLimit.LeakIsDueIff` | daemon/ndn-face.cc:120-121 | what leaks is the rate times the whole seconds passed exactly within the first minute, and never more |
| `RateLimit.LevelIsDueIff` | daemon/ndn-face.cc:120-125 | exactly when the bucket is left as full as it should be: in the first minute, if it was empty, if nothing was due, or if the seconds within the minute empty it anyway |
| `RateLimit.WholeMinutesLeakNothing` | daemon/ndn-face.cc:120-125 | after a whole number of idle minutes the bucket is as full as before |
| `PacketStorage.OrderIsTotalMicros` | network/mac/packet-storage.h:153-156 | normalised pairs are ordered as total microseconds |
| `PacketStorage.InsertKeepsIndices` | network/mac/packet-storage.h:233-256 | insertion keeps the deadline order and the uniqueness of keys, names and identities, and adds exactly the new packet |
| `PacketStorage.ReplaceKeepsIndices` | network/mac/packet-storage.cc:199-215 | replacing one packet by itself with other counts and deadline keeps the indices and all others |
| `PacketStorage.MatchesArePrefixes` | network/mac/packet-storage.cc:232-249 | looking up every prefix by length finds exactly the packets whose name is a prefix |
| `PacketStorage.PurgedContents` | network/mac/ll-nom-policy.cc:102-117 | deleting the matches by key drops exactly those packets |
| `PacketStorage.Storage.InsertPkt` | network/mac/packet-storage.cc:89-101 | stores unless the key or the name is present, with count one |
| `PacketStorage.Storage.GetFirstDeadline` | network/mac/packet-storage.cc:103-114 | a packet with the least deadline, or none exactly when the table is empty |
| `PacketStorage.Storage.GetPktByKey` | network/mac/packet-storage.cc:117-127 | the packet with the key, if there is one |
| `PacketStorage.Storage.DeletePktByKey` | network/mac/packet-storage.cc:129-142 | deletes the packet with the key and says whether there was one |
| `PacketStorage.Storage.DeleteFirstPkt` | network/mac/packet-storage.cc:144-162 | deletes the packet with the least deadline only if it has the key |
| `PacketStorage.Storage.IncreaseRetransmissionCounterAndSetNewTimer` | network/mac/packet-storage.cc:199-215 | counts up and retimes the packet with the key; fails exactly without one |
| `PacketStorage.Storage.SearchByPrefixMatch` | network/mac/packet-storage.cc:232-249 | the loop over prefix lengths returns the matches, longest first |
| `NomPolicy.GapBound` | network/mac/ll-nom-policy.cc:453-457 | the distance delay lies between 0 and 5000 us and is 0 beyond 150 m |
| `NomPolicy.FartherWaitsLess` | network/mac/ll-nom-policy.cc:453-457 | a farther node waits no longer, and within 150 m the delay is 5000 us less 100 us for every three metres, rounded down |
| `NomPolicy.LaterIsExact` | network/mac/ll-nom-policy.cc:437-461 | before the 32-bit seconds run over, a timer is normalised and lies exactly the delay after the clock |
| `NomPolicy.AppendComponents` | network/mac/ll-nom-policy.cc:73-78 | the loop builds the key string |
| `NomPolicy.Policy.CalculateNextTimer` | network/mac/ll-nom-policy.cc:437-444 | before the 32-bit seconds run over, the timer is normalised and lies exactly half a second after the clock |
| `NomPolicy.Policy.CalculateFirstTransmission` | network/mac/ll-nom-policy.cc:447-461 | before the 32-bit seconds run over, the timer is normalised and lies exactly the random delay plus the distance delay after the clock, at most 6999 us |
| `NomPolicy.Policy.AddOutgoingPkt` | network/mac/ll-nom-policy.cc:49-188 | takes the specified step; an error is returned exactly when a known packet was not stored |
| `NomPolicy.Policy.InterestFromNetwork` | network/mac/ll-nom-policy.cc:211-272 | the packet is handed up except on a full acknowledgement of a pending interest with the same nonce, which is deleted; exactly that packet goes |
| `NomPolicy.Policy.ContentFromNetwork` | network/mac/ll-nom-policy.cc:273-343 | the packet is handed up except on a full acknowledgement of the pending content; exactly the acknowledged packet and those whose name is a prefix go |
| `NomPolicy.Policy.GetNextDeadline` | network/mac/ll-nom-policy.cc:375-388 | the least deadline, none exactly when nothing is pending |
| `NomPolicy.Policy.GetPktForRetransmission` | network/mac/ll-nom-policy.cc:390-434 | sends the packet with the least deadline and deletes or retimes it; the branch for a failed counter update is never reached |
| `NomPolicy.SelectTimeout` | network/mac/ndn-device-adapter.cc:269-290 | the wait is zero once the deadline has passed, otherwise exactly the difference, normalised |
| `NomRuns.TraceKeepsInv` | network/mac/ll-nom-policy.cc:49-461 | in every state of every run, whatever the clock does, counts lie between 1 and the limit 8 and the table is in deadline order with unique keys, names and identities |
| `NomRuns.TraceKeepsDeadlines` | network/mac/ll-nom-policy.cc:437-461 | with strictly increasing clock readings every deadline is at most 500000 us after the last one |
| `NomRuns.FirstTimerIsSoon` | network/mac/ll-nom-policy.cc:447-461 | a first delay is at most 1999 + 5000 us |
| `NomRuns.StepOf` | network/mac/ll-nom-policy.cc:390-434 | what one step may do to one packet, whatever the clock does: stored with count one, unchanged, sent and counted up with a new deadline, or gone |
| `NomRuns.StepIsPunctual` | network/mac/ll-nom-policy.cc:437-444 | if the clock has advanced, a packet sent and still waiting is due exactly half a second after the new reading |
| `NomRuns.RoundRobin` | network/mac/ll-nom-policy.cc:390-461 | with strictly increasing clock readings, between two transmissions of one packet every other packet pending at both has been transmitted |
| `NomRuns.SentEightTimes` | network/mac/ll-nom-policy.cc:390-434 | in every run, whatever the clock does, a packet is sent at most eight times, and exactly eight times if and only if it was stored, is gone and was neither acknowledged nor purged |
| `NomRuns.BudgetFalls` | network/mac/ll-nom-policy.cc:390-434 | the transmissions owed fall by exactly one per transmission |
| `NomRuns.Drains` | network/mac/ll-nom-policy.cc:390-434 | in every run, whatever the clock does, with nothing new to send the table is empty after exactly as many transmissions as are owed and not before |
| `NomFacts.JoinInjective` | network/mac/ll-nom-policy.cc:73-78 | names without slashes in their components have different key strings |
| `NomFacts.ContentPurgesAndIsStored` | network/mac/ll-nom-policy.cc:82-118 | sending a content leaves exactly the packets whose name is not a prefix of its name, and stores it exactly when none of those has its key |
| `NomFacts.ContentAlwaysStored` | network/mac/ll-nom-policy.cc:153-187 | in every run without slashes in components, whatever the clock does, every content is stored |
| `NomFacts.InterestIsStoredIff` | network/mac/ll-nom-policy.cc:62-81 | sending an interest takes nothing away, and stores it exactly when no pending packet, interest or content, has its name or its key |
| `NomFacts.InterestStoredUnlessPending` | network/mac/ll-nom-policy.cc:153-187 | in every run without slashes in components an interest is stored exactly when no packet of its name is pending |
| `NomFacts.SlashCollides` | network/mac/ll-nom-policy.cc:93-99 | two different names, one with a slash in a component, that share a key |
| `NomFacts.SlashRefuses` | network/mac/ll-nom-policy.cc:153-187 | in every run that begins by sending those two contents the second is not stored and the first stays pending |
| `NomFacts.HeardContentPurges` | network/mac/ll-nom-policy.cc:290-341 | where at most one further packet is satisfied, hearing a content leaves exactly the packets whose name is not a prefix of its name and that are not acknowledged |
| `NomFacts.HeardInterestLeaves` | network/mac/ll-nom-policy.cc:243-262 | hearing an interest leaves exactly the pending packets other than the interest of that name and nonce, which goes if the sender is far enough |
| `NomFacts.AcknowledgedIsNotSentAgain` | network/mac/ll-nom-policy.cc:211-343 | in every run a packet that is acknowledged, or satisfied by a content heard, is not sent by that event nor by any later one |
| `NomFacts.AcknowledgementMattersIff` | network/mac/ll-nom-policy.cc:297-341 | where at most one packet is satisfied either way, whether a heard content counts as an acknowledgement changes what stays pending exactly when another name has its key; the pending content of its own name is deleted either way |
| `NomFacts.TwoMatchesReachable` | network/mac/ll-nom-policy.cc:321-341 | for any name and proper prefix there is a run after which a content heard satisfies two packets |
| `NomFacts.RepeatedReadingBreaksRoundRobin` | network/mac/ll-nom-policy.cc:437-444 | with one clock reading repeated there is a run in which a packet is sent twice in a row while another is pending |
| `NomFacts.DeadlineBeforeClockIff` | network/mac/ll-nom-policy.cc:437-444 | a new deadline lies before the clock exactly in the last half second of the 32-bit seconds |
| `PacketBuffer.Buffer.Write` | network/buffer.cc:48-53 | appends the bytes in place |
| `PacketBuffer.Buffer.WriteU8` | network/buffer.cc:55-58 | appends one byte |
| `PacketBuffer.Cursor.ReadU8` | network/buffer.cc:78-81 | returns the byte under the cursor and moves on by one |
| `BlockHeader.HeaderRoundTrip` | helper/ccnb-parser/syntax-tree/ccnb-parser-block.cc:49-66 | decoding inverts encoding anywhere in a buffer for every 32-bit value and tag type |
| `BlockHeader.HeaderIsNotCloser` | helper/ndn-encoding-helper.cc:263-280 | the first byte of a header is never zero, so no block is mistaken for a closer |
| `BlockHeader.ScratchSuffices` | helper/ndn-encoding-helper.cc:263-280 | any 64-bit value takes at most 10 of the 17 scratch bytes |
| `BlockHeader.AppendBlockHeader` | helper/ndn-encoding-helper.cc:263-280 | the backward-filled scratch array appends exactly the header |
| `BlockHeader.EstimateBlockHeader` | helper/ndn-encoding-helper.cc:282-292 | the estimate is the length written, for every tag type |
| `CcnbTree.ParseBlock` | helper/ccnb-parser/syntax-tree/ccnb-parser-block.cc:47-89 | on every byte string parsing ends, never passes the end, and consumes at least one byte when it starts before the end |
| `CcnbTree.ParseContents` | helper/ccnb-parser/syntax-tree/ccnb-parser-dtag.cc:46-80 | the attribute and nested-block loops never pass the end and consume what they accept |
| `CcnbTree.ParsePrint` | helper/ccnb-parser/syntax-tree/ccnb-parser-block.cc:47-89 | parsing a printed tree anywhere in a buffer returns the tree and stops right behind it |
| `CcnbTree.TagBytes` | helper/ccnb-parser/ccnb-parser-common.h:80-176 | the bytes with which every numbered tag is printed, and text and blobs of up to fifteen bytes |
| `CcnbParser.ReadHeaderAt` | helper/ccnb-parser/syntax-tree/ccnb-parser-block.cc:49-66 | the header loop over the cursor, with 32-bit wrap-around |
| `CcnbParser.ReadBlob` | helper/ccnb-parser/syntax-tree/ccnb-parser-blob.cc:28-42 | copies exactly the announced bytes or fails at the end |
| `CcnbParser.ReadText` | helper/ccnb-parser/syntax-tree/ccnb-parser-udata.cc:28-44 | the same for text and for tag and attribute names |
| `CcnbParser.ParseBlockAt` | helper/ccnb-parser/syntax-tree/ccnb-parser-block.cc:47-89 | the recursive descent over the mutable cursor agrees with the specification, result and position |
| `CcnbParser.ParseTagAt` | helper/ccnb-parser/syntax-tree/ccnb-parser-tag.cc:30-61 | a named tag: its name, then its contents |
| `CcnbParser.ParseDtagAt` | helper/ccnb-parser/syntax-tree/ccnb-parser-dtag.cc:31-81 | a numbered tag; `<Content>` has no contents of its own |
| `CcnbParser.ParseAttrAt` | helper/ccnb-parser/syntax-tree/ccnb-parser-attr.cc:30-42 | a named attribute: its name, then a block that must be text |
| `CcnbParser.ParseDattrAt` | helper/ccnb-parser/syntax-tree/ccnb-parser-dattr.cc:29-35 | a numbered attribute, whose value must be text |
| `CcnbParser.ParseAttrsAt` | helper/ccnb-parser/syntax-tree/ccnb-parser-dtag.cc:45-54 | the loop over attributes stops behind the first block that is not one |
| `CcnbParser.ParseNestedAt` | helper/ccnb-parser/syntax-tree/ccnb-parser-dtag.cc:56-66 | the loop over nested blocks, which a content object ends behind its content |
| `CcnbParser.ParseContentsAt` | helper/ccnb-parser/syntax-tree/ccnb-parser-dtag.cc:46-80 | both loops and the closer, with the stop rules for content objects |
| `Decimal.NumberRoundTrip` | helper/ccnb-parser/visitors/ccnb-parser-non-negative-integer-visitor.cc:39-50 | reading back printed digits gives the number up to 2147483647 and that bound above it |
| `Decimal.AppendNumber` | helper/ndn-encoding-helper.cc:294-306 | appends the decimal digits as text |
| `Decimal.EstimateNumber` | helper/ndn-encoding-helper.cc:308-314 | the estimate is the length written |
| `Timestamp.WholeSecondsExact` | helper/ccnb-parser/visitors/ccnb-parser-timestamp-visitor.cc:34-56 | whole seconds survive exactly when the encoder's size fits them |
| `Timestamp.MinuteIsLost` | helper/ndn-encoding-helper.cc:344-369 | a duration of one minute does not survive |
| `Timestamp.CanBeNegative` | helper/ccnb-parser/visitors/ccnb-parser-timestamp-visitor.cc:34-56 | the two bytes 00 80 read as a negative duration where characters are signed |
| `Timestamp.RoundTripBound` | helper/ccnb-parser/visitors/ccnb-parser-timestamp-visitor.cc:34-56 | for every duration the error is at most 123 us exactly when the seconds fit, rounding does not overflow, and the last byte is read as unsigned or is small |
| `Timestamp.SizePredicted` | helper/ndn-encoding-helper.cc:371-380 | predicted and written size agree exactly when the seconds fit |
| `Timestamp.AppendTimestampBlob` | helper/ndn-encoding-helper.cc:344-369 | appends exactly the specified bytes |
| `Timestamp.EstimateTimestampBlob` | helper/ndn-encoding-helper.cc:371-380 | computed from the total seconds, it is the size written exactly when the seconds fit |
| `Interest.ComponentsRoundTrip` | helper/ccnb-parser/visitors/ccnb-parser-name-components-visitor.cc:32-55 | a printed name is read back exactly when no component is empty |
| `Interest.NonceRoundTrip` | helper/ccnb-parser/visitors/ccnb-parser-nonce-visitor.cc:29-37 | the four bytes of a nonce give back the nonce |
| `Interest.InterestRoundTrip` | helper/ndn-decoding-helper.cc:39-49 | parsing a serialised interest, whatever follows it, fails exactly for an empty component and otherwise yields the interest with unset fields normalised and number and lifetime as received |
| `Interest.WholeSecondInterestRoundTrip` | helper/ndn-encoding-helper.cc:35-104 | exactly which interests with a lifetime of whole seconds come back unchanged up to unset fields |
| `Interest.InterestMarker` | helper/ndn-header-helper.h:26-27 | every serialised interest starts with the two marker bytes |
| `InterestCodec.AppendTaggedBlob` | helper/ndn-encoding-helper.cc:382-398 | appends the printed block and returns its length, also when empty |
| `InterestCodec.AppendNameComponents` | helper/ndn-encoding-helper.cc:323-332 | appends the printed components in order |
| `InterestCodec.Serialize` | helper/ndn-encoding-helper.cc:35-104 | the buffer grows by exactly the printed interest and the count returned is its length |
| `InterestCodec.GetSize` | helper/ndn-encoding-helper.cc:106-168 | the prediction equals the size written exactly when the lifetime is unset or fits |
| `InterestVisitor.VisitComponents` | helper/ccnb-parser/visitors/ccnb-parser-name-components-visitor.cc:32-55 | appends the components in place or fails as specified |
| `InterestVisitor.VisitFieldInto` | helper/ccnb-parser/visitors/ccnb-parser-interest-visitor.cc:66-172 | each known field sets its part of the header object |
| `InterestVisitor.VisitBlock` | helper/ccnb-parser/visitors/ccnb-parser-interest-visitor.cc:49-178 | a visit changes the header object as the specification says |
| `InterestVisitor.DeserializeInterest` | helper/ndn-decoding-helper.cc:39-49 | parsing the buffer and visiting the tree is the specified decoding; the count returned is the bytes parsed, cut to eight bits |
| `ContentPacket.ContentRoundTrip` | helper/ccnb-parser/syntax-tree/ccnb-parser-dtag.cc:31-81 | whatever the payload, the name comes back (or an empty component is refused) and parsing stops exactly where the payload starts |
| `ContentPacket.ContentMarker` | helper/ndn-header-helper.h:29-30 | every content packet starts with its two marker bytes |
| `ContentPacket.SerializeContent` | helper/ndn-encoding-helper.cc:170-211 | the buffer grows by exactly the header |
| `ContentPacket.GetContentSize` | helper/ndn-encoding-helper.cc:213-252 | the prediction equals the size written |
| `ContentPacket.MakeContentPacket` | network/ndn-content-packet.cc:26-35 | a new buffer with the header followed by the payload |
| `ContentPacket.ReceiveContent` | apps/ndn-consumer.cc:92-119 | a consumer decodes the header, skips the size predicted for the decoded name and takes the rest; of a packet made for any name and payload it gets both back, and nothing if a component is empty; of any other packet what it takes is what follows the header exactly when parsing stops at the predicted size |
| `ContentPacket.VisitContentBlock` | helper/ccnb-parser/visitors/ccnb-parser-content-object-visitor.cc:40-75 | the visit sets the name of the header object as specified |
| `ContentPacket.DeserializeContentObject` | helper/ndn-decoding-helper.cc:51-61 | parsing and visiting a content packet is the specified decoding; the count returned is the bytes parsed, cut to eight bits |
| `Ring.StepKeepsInv` | network/mac/ll-upper-layer-comm-service.cc:61-138 | every step of either thread keeps the ring invariant |
| `Ring.RingIsSafe` | daemon/ndn-adhoc-net-device-face.cc:104-191 | under every interleaving messages are read in the order accepted, at most 100 are outstanding, unread ones stay in their slots, a woken reader never finds its slot unused, no slot is held by both |
| `Ring.NoLostWakeup` | network/mac/ll-upper-layer-comm-service.cc:129-135 | with both threads at rest there is one trigger per unread message |
| `Ring.NoDeadlock` | network/mac/ll-upper-layer-comm-service.cc:61-138 | unless the writer has overflowed, some thread can go on while there is work |
| `Ring.OverflowIff` | network/mac/ll-upper-layer-comm-service.cc:114-120 | the writer finds its slot used exactly when 100 messages are unread |
| `Ring.OverflowIsFinal` | network/mac/ll-upper-layer-comm-service.cc:114-120 | after an overflow no message is accepted and none is read |
| `Ring.CanOverflow` | network/mac/ll-upper-layer-comm-service.cc:102-138 | on either ring there is a run that overflows: 100 messages that are not read and one more call |

## Left out

- Sockets, raw Ethernet, gpsd, event loop, thread creation, management queue, logging and applications: input and output.
- Packet metadata and its ownership, acknowledgement distances and geography: the distance of the previous hop is an arbitrary non-negative real and whether a packet is a full acknowledgement is an arbitrary flag.
- Hash values, buckets and the inside of the multi-index containers: they are modelled by the contracts of their indices. Where an index leaves the order of equal keys open, the packet table follows insertion at the upper bound and the expiry order is arbitrary.
- `find_if`, `clear_if` and the match with a predicate: only the plain lookups are modelled.
- ContentStore.Store.DeepestPrefixMatch: as for the public lookup, the root name in an empty store is excluded.
- ContentStore.Store.Lookup: the root name in an empty store is excluded by a precondition, because the code then passes a null node to the policy.
- Forwarder.Protocol.OnInterestPacket: inherits that precondition.
- Engine rate limits: what a face's limit answers while an interest is propagated is arbitrary in the engine; the bucket itself is in `RateLimit`, over real numbers and not floating point.
- Sending nacks: it is switched off by a constant false flag. Incoming nacks are modelled.
- FIB entries are values with an identity inside the daemon's tables, and the PIT points to them by prefix and identity; the three face indices of an entry as an object are in `FaceRanking.FaceIndex`.
- Forwarder.Protocol.RemoveFromAll: goes over a snapshot of the FIB, while the code erases entries during its own iteration.
- Removing a single route is not a step of the runs, because it does not keep the invariant; `EngineFacts.UnregisterStaleIff` says exactly when.
- Lifetimes are whole microseconds. One that is serialised is not negative; one that is decoded and forwarded can be.
- Timestamps long enough to overflow 64 bits while decoding.
- A truncated header: the source builds an exception there but does not throw it, and the model does not fail either.
- An empty list of children where the source takes the last one of a content object: its behaviour is undefined and the model reports failure.
- Tag and attribute name lengths are read as written, one more than announced, in 32 bits.
- NomPolicy.Policy.ContentFromNetwork: at most one further pending match, because with several the source reads a freed element; the runs in `NomRuns` exclude the same step, which `NomFacts.TwoMatchesReachable` shows to be reachable.
- NomPolicy.Policy.InterestFromNetwork: says whether the packet is handed up; the result of handing it up, after which the source returns a discard or an error, is not modelled.
- EngineInvariants.SatisfyKeepsInv: an invariant about inequalities only; what is sent is stated by `EngineOutcomes.SatisfyDelivers` and the exact account by `EngineAccounts.LedgerBalances`.
- NomRuns.RoundRobin: for runs whose clock readings strictly increase and lie before the 32-bit second counter runs over; `NomFacts.RepeatedReadingBreaksRoundRobin` and `NomFacts.DeadlineBeforeClockIff` say what happens otherwise. Counts, draining and storing are proved for any clock.
- ContentPacket.ReceiveContent: reports failure where the predicted header is longer than the packet; the source does not test this and copies a negative length.
- Forwarder.Protocol.RegisterRoute: for registered faces; the management thread logs an unknown face number and then passes on a null face.
- Ring: one writer and one reader whose trigger writes succeed; the slot fields other than the flag and the data are not distinguished.
