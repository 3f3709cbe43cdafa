# Dafny model of the hash library, graph searches, storage loader, connection actors and Game of Life

The project models five cores of the repository and proves what they are for.

* **Checksums and hashes** (`Bytes`, `Blocks`, `Words`, `Roots`, `Hex`, `Crc32`, `Sha256`, `Sha1`, `Md5`, `Fips202`,
  `Keccak`, `KeccakInverse`, `LaneBits`, `KeccakBits`, `HashSpec`, `SpongeBits`, `HashExamples`, `Hasher`, `Hmac`).
  The slicing-by-eight CRC is proved equal to the bit-serial register of section 8 of RFC 1952, for every start value
  and every byte string; which messages share a CRC is stated exactly, and every error burst of at most 32 bits is
  proved detected. The unrolled SHA-256, SHA-1 and MD5 block functions are proved equal to the uniform loops of
  sections 6.2.2 and 6.1.2 of FIPS 180-4 and section 3.4 of RFC 1321, sums in the order written there, and the
  in-place Keccak rounds to sections 3.2 and 3.3 of FIPS 202; the permutation is proved to be one, with theta and
  every round inverted. Apart from all code, `Fips202` states Keccak and SHA-3 on bit strings, and the digests
  computed on bytes and lanes are proved to be those. The constants of SHA-1 and SHA-256 are proved to be the digits
  of roots they are taken from, and an example of the library's own is worked through for CRC, MD5, SHA-1 and SHA-256.
  The streaming laws are proved for any step; on top of them one streaming class is proved to compute the digest of
  the concatenated message however it was cut, and to go on as if no digest had been asked for. HMAC is proved to be
  the nested hash of section 2 of RFC 2104.
* **Graphs** (`Graph`, `Results`, `Bfs`, `Dfs`). Breadth-first search computes shortest distances and a printable
  shortest path; depth-first search satisfies the parenthesis, white-path, cycle and topological-order theorems, the
  white-path theorem for the colors recorded during the search itself, and each of its trees is characterized. The
  marks of either search are proved to be determined by the graph and the start. The loops and the recursion are those
  of the source, over arbitrary graphs.
* **Storage loader** (`YamlStorage`). What a load of any tree leaves under any key is determined exactly, and from
  that: loading twice is loading once, earlier contents below the root are forgotten, and when everything can be read
  back; in a tree of unique plain keys every scalar is.
* **Connection actors** (`ConnectionActor`, `LoginController`, `CommandActor`, `Network`). Handlers are steps of a
  network in which every channel keeps its sender's order and anything else may interleave. The invariants hold in
  every reachable state, every history of typed lines has a run, and when a connection hangs up is told from what was
  read alone.
* **Game of Life** (`Life`). The rule by birth and survival, and stepping between two buffers, for boards of any size
  and any number of generations.

Objects that update fields are classes, arrays that are updated in place stay arrays, and each such method is proved
against a function on values; the theorems are about those functions and about every run of them.

Where code and comments or names disagree, the model follows the code. The comments in `sha1.cpp` line 28 and
`sha256.cpp` line 30 name RFC 1321 as the origin of the initial values; they are those of sections 5.3.1 and 5.3.3 of
FIPS 180-4. After a confirmation that does not match, the login asks for the password but compares the next line with
the old one, and after an empty name it asks for a password and takes the next line as the name; `AskedAsTaken` says
when prompt and use agree.

## Model

| member | source | states |
|---|---|---|
| Crc32Spec.ClockLinear | pmud/src/common/hash-library/crc32.cpp:35-41 | one bit step is linear over exclusive or |
| Crc32Spec.FeedIsClocks | pmud/src/common/hash-library/crc32.cpp:37-40 | feeding up to 32 bits one at a time is adding them to the register and then clocking it |
| Crc32Spec.TableLaw | pmud/src/common/hash-library/crc32.cpp:34-55 | entry `i` of table `k`, by the generator recurrence, is `i` clocked `8 (k + 1)` times |
| Crc32Spec.WordThroughTables | pmud/src/common/hash-library/crc32.cpp:361-368 | four table entries combined clock a whole word |
| Crc32Spec.EightByteStep | pmud/src/common/hash-library/crc32.cpp:345-371 | one turn of the eight-byte loop feeds 64 message bits to the register |
| Crc32Spec.ByteStep | pmud/src/common/hash-library/crc32.cpp:373-376 | one turn of the byte loop feeds eight message bits |
| Crc32Spec.Chunking | pmud/src/common/hash-library/crc32.cpp:339-379 | the CRC of two pieces one after the other is that of their concatenation |
| Crc32Spec.BurstDetected | pmud/src/common/hash-library/crc32.cpp:373-378 | messages that differ only inside a window of at most 32 bits have equal CRCs exactly when they are equal |
| Crc32Spec.FourByteBurstDetected | pmud/src/common/hash-library/crc32.cpp:373-378 | the same for any four consecutive bytes |
| Crc32Spec.LongerBurstMissed | pmud/src/common/hash-library/crc32.cpp:373-378 | 32 bits is the limit: five bytes that are not zero have the CRC of five zero bytes |
| Crc32Spec.FeedLinear | pmud/src/common/hash-library/crc32.cpp:373-378 | the register is linear in start value and bits together |
| Crc32Spec.CollisionExactly | pmud/src/common/hash-library/crc32.cpp:339-379 | messages of one length share a CRC exactly when the pattern of their differing bits leaves an empty register empty |
| Crc32Spec.PrintedAlike | pmud/src/common/hash-library/crc32.cpp:383-403 | CRCs that print alike are the same |
| Crc32.Crc32.Reset | pmud/src/common/hash-library/crc32.cpp:22-26 | the register starts at zero |
| Crc32.Crc32.Add | pmud/src/common/hash-library/crc32.cpp:339-379 | the two loops compute the bit-serial CRC of the data from the old value |
| Crc32.Crc32.GetHash | pmud/src/common/hash-library/crc32.cpp:383-403 | eight hexadecimal digits, the most significant first |
| Hex.Injective | pmud/src/common/hash-library/sha256.cpp:374-383 | digests that print alike are the same bytes |
| Hex.DigitIs | pmud/src/common/hash-library/sha256.cpp:372-381 | digit n is the n-th character of 0123456789abcdef |
| Words.StoredWord | pmud/src/common/hash-library/sha256.cpp:389-410 | a word written to its bytes is read back, in either byte order |
| Words.StoredBytes | pmud/src/common/hash-library/sha256.cpp:104-113 | four bytes loaded as a word are written back, in either byte order |
| Roots.PrimesListed | pmud/src/common/hash-library/sha256.cpp:30-40 | the list of primes is ascending and misses none up to its last, the 64th |
| Sha256Spec.InitialFromSquareRoots | pmud/src/common/hash-library/sha256.cpp:30-40 | each initial word holds the first 32 binary places of the square root of its prime, the first eight in order |
| Sha256Spec.KFromCubeRoots | pmud/src/common/hash-library/sha256.cpp:124-243 | each round constant holds the first 32 binary places of the cube root of its prime, the first 64 in order |
| Sha1Spec.KFromSquareRoots | pmud/src/common/hash-library/sha1.cpp:106-143 | the round constants are 2^30 times the square roots of 2, 3, 5 and 10, rounded down |
| Sha256.MixingFunctions | pmud/src/common/hash-library/sha256.cpp:80-93 | the rewritten helpers are the standard's Ch and Maj with their sigmas, for all words |
| Words.AddAssoc | pmud/src/common/hash-library/sha256.cpp:124-125 | addition of 32-bit words may be regrouped |
| Sha256.LineIsRound | pmud/src/common/hash-library/sha256.cpp:123-131 | one pair of lines with renamed registers is one round of the standard |
| Sha256.ProcessBlock | pmud/src/common/hash-library/sha256.cpp:97-254 | the staged schedule and the 64 unrolled rounds equal the uniform compression, for every block and chaining value |
| Sha1.MixingFunctions | pmud/src/common/hash-library/sha1.cpp:40-53 | the rewritten helpers are Ch, Parity and Maj |
| Sha1.ProcessBlock | pmud/src/common/hash-library/sha1.cpp:78-152 | the 80 unrolled rounds equal the uniform compression |
| Md5.MixingFunctions | pmud/src/common/hash-library/md5.cpp:38-56 | the rewritten helpers are F, G, H and I of RFC 1321 |
| Md5.ProcessBlock | pmud/src/common/hash-library/md5.cpp:83-206 | the 64 unrolled steps equal the uniform compression |
| KeccakSpec.RoundConstants | pmud/src/common/hash-library/keccak.cpp:39-49 | the table of masks is what the feedback register of section 3.2.5 of FIPS 202 generates |
| KeccakSpec.RhoIsWalk | pmud/src/common/hash-library/keccak.cpp:124-149 | the walk over the lanes that section 3.2.2 of FIPS 202 prescribes rotates each lane by its offset |
| KeccakSpec.RhoBijective | pmud/src/common/hash-library/keccak.cpp:124-149 | rho has an inverse on both sides |
| KeccakSpec.PiBijective | pmud/src/common/hash-library/keccak.cpp:124-149 | pi has an inverse on both sides |
| KeccakSpec.RhoPiBijective | pmud/src/common/hash-library/keccak.cpp:124-149 | rho and pi together have an inverse on both sides |
| KeccakSpec.ChiBijective | pmud/src/common/hash-library/keccak.cpp:151-163 | chi has an inverse on both sides |
| KeccakInverse.BackInverse | pmud/src/common/hash-library/keccak.cpp:106-119 | theta's map on the column parities has its own 191st power as inverse on both sides |
| KeccakInverse.ThetaBijective | pmud/src/common/hash-library/keccak.cpp:106-119 | theta has an inverse on both sides |
| KeccakInverse.RoundBijective | pmud/src/common/hash-library/keccak.cpp:103-167 | every round has an inverse on both sides |
| KeccakInverse.KeccakFBijective | pmud/src/common/hash-library/keccak.cpp:103-167 | the permutation has an inverse on both sides: it is one |
| KeccakBits.ThetaOnBits | pmud/src/common/hash-library/keccak.cpp:106-119 | theta on lanes is what section 3.2.1 of FIPS 202 does to the 1600 bits |
| KeccakBits.RhoOnBits | pmud/src/common/hash-library/keccak.cpp:124-149 | rho on lanes is the loop of section 3.2.2 on the bits, every shift amount included |
| KeccakBits.PiOnBits | pmud/src/common/hash-library/keccak.cpp:124-149 | pi on lanes is section 3.2.3 on the bits |
| KeccakBits.ChiOnBits | pmud/src/common/hash-library/keccak.cpp:151-163 | chi on lanes is section 3.2.4 on the bits |
| KeccakBits.IotaOnBits | pmud/src/common/hash-library/keccak.cpp:165-166 | iota on lanes is section 3.2.5 on the bits, with the register of eight bits run step by step |
| KeccakBits.PermutationOnBits | pmud/src/common/hash-library/keccak.cpp:103-167 | the permutation of the lanes, seen bit by bit, is that of section 3.3 on the state array |
| SpongeBits.LoadedBit | pmud/src/common/hash-library/keccak.cpp:100-101 | bit `z` of a lane loaded from eight bytes is bit `z` of the bytes, as section 3.1.2 of FIPS 202 numbers them |
| SpongeBits.AddedOnBits | pmud/src/common/hash-library/keccak.cpp:100-101 | adding a block flips exactly the bits of the state where the block has ones |
| SpongeBits.StoredBits | pmud/src/common/hash-library/keccak.cpp:253-273 | the first bytes written out hold the first bits of the state, lane by lane |
| SpongeBits.SpongeOnBits | pmud/src/common/hash-library/keccak.cpp:172-212 | absorbing a block does to the lanes what section 4 of FIPS 202 does to the bits |
| SpongeBits.FoldOnBits | pmud/src/common/hash-library/keccak.cpp:197-204 | for any step: going through a message block by block is, seen through a view, going through its bits block by block |
| SpongeBits.StandardDigests | pmud/src/common/hash-library/sha3.cpp:219-281 | for every message and size the digests are SHA3-d of section 6.1 and KECCAK[2d] of section 5.2, defined on bit strings |
| KeccakCode.ThetaInPlace | pmud/src/common/hash-library/keccak.cpp:106-119 | the in-place column sums equal theta on the lane matrix |
| KeccakCode.RhoPiInPlace | pmud/src/common/hash-library/keccak.cpp:124-149 | the running chain of displaced lanes equals pi after rho |
| KeccakCode.ChiInPlace | pmud/src/common/hash-library/keccak.cpp:151-163 | overwriting a row with two saved lanes equals chi |
| KeccakCode.Permute | pmud/src/common/hash-library/keccak.cpp:103-167 | the round loop equals the 24 rounds of the permutation of section 3.3 |
| KeccakCode.ProcessBlock | pmud/src/common/hash-library/keccak.cpp:90-168 | a block is added to the leading lanes, least significant byte first, and permuted, for every state and block |
| BlockFold.FoldAppend | pmud/src/common/hash-library/sha256.cpp:280-290 | for any step, folding a whole number of blocks and then the rest is folding all of them |
| HashSpec.PaddedWhole | pmud/src/common/hash-library/sha256.cpp:302-338 | padding is never empty and completes a block |
| HashSpec.ZeroCountLeast | pmud/src/common/hash-library/sha256.cpp:310-323 | the number of zero bytes is the least that brings the bit length to 448 modulo 512 |
| HashSpec.PaddedInjective | pmud/src/common/hash-library/sha256.cpp:302-364 | equal padded messages are equal messages, at any length and for all five algorithms |
| HashSpec.PaddedSuffixFree | pmud/src/common/hash-library/sha256.cpp:340-357 | below 2^61 bytes no padded message is the end of another, because the length field tells lengths apart |
| HashSpec.SpongePadding | pmud/src/common/hash-library/sha3.cpp:219-234 | byte by byte, the sponges append the domain suffix and pad10*1 of section 5.1 of FIPS 202 |
| Streaming.HoldStep | pmud/src/common/hash-library/sha256.cpp:262-269 | a buffered byte keeps the streaming invariant for the longer message |
| Streaming.FlushStep | pmud/src/common/hash-library/sha256.cpp:272-277 | compressing the full buffer keeps it for the same message |
| Streaming.BlockStep | pmud/src/common/hash-library/sha256.cpp:284-290 | compressing a block straight from the input keeps it for the longer message |
| Streaming.NoTrace | pmud/src/common/hash-library/sha256.cpp:258-298 | the message alone determines chaining value, buffer and counter: how it was cut leaves no trace |
| HashSpec.TailIsPadding | pmud/src/common/hash-library/sha256.cpp:341-342 | buffer fill and 64-bit counter suffice for the padding of the whole message, even after the counter wraps |
| Streaming.FinalStep | pmud/src/common/hash-library/sha256.cpp:302-364 | folding what is held back and any further bytes completes the fold over the whole message and those bytes |
| Hasher.Hasher.Finish | pmud/src/common/hash-library/sha256.cpp:302-364 | finalising leaves the fold over the whole padded message, and what is held stays |
| Hasher.Hasher.constructor | pmud/src/common/hash-library/sha256.cpp:18-21 | a new object has consumed the empty message |
| Hasher.Hasher.Reset | pmud/src/common/hash-library/sha256.cpp:25-54 | the object forgets its message and starts from the algorithm's initial value |
| Hasher.Hasher.ProcessBlock | pmud/src/common/hash-library/sha256.cpp:97-254 | each algorithm's block function on the object's own chaining value |
| Hasher.Hasher.Add | pmud/src/common/hash-library/sha256.cpp:258-298 | the message grows by the data and the streaming invariant holds again |
| Hasher.Hasher.ProcessBuffer | pmud/src/common/hash-library/md5.cpp:254-316 | exactly the held bytes and their padding are compressed, in one block or two; the held bytes stay |
| Hasher.PaddedLength | pmud/src/common/hash-library/sha256.cpp:310-323 | the bit arithmetic yields 56 bytes, or 120 when the length no longer fits |
| Hasher.PadBlocks | pmud/src/common/hash-library/sha256.cpp:325-357 | buffer and overflow block hold the data, the marker, the zeros and the length |
| Hasher.WriteLength | pmud/src/common/hash-library/md5.cpp:301-309 | the eight length bytes, least significant first for MD5 and most significant first otherwise |
| Hasher.PadSponge | pmud/src/common/hash-library/keccak.cpp:216-231 | the sponges' buffer holds the data and the padding, also when one byte must carry both marks |
| Hasher.WriteWords | pmud/src/common/hash-library/sha256.cpp:399-409 | the words are written out in the algorithm's order and the saved ones restored in the same loop |
| Hasher.LaneDigits | pmud/src/common/hash-library/keccak.cpp:249-273 | the hex text of the leading lanes, with the half lane of the 224-bit variants |
| Hasher.Hasher.GetRawHash | pmud/src/common/hash-library/sha256.cpp:389-410 | the digest of the message; chaining value, buffer content and counter are as before |
| Hasher.Hasher.GetSpongeHash | pmud/src/common/hash-library/keccak.cpp:236-280 | the hex digest of the message; the state is as before |
| Hasher.Hasher.GetHash | pmud/src/common/hash-library/sha256.cpp:368-385 | the hex text of the digest; asking again or adding more behaves as if it had not been asked |
| Hasher.Hasher.HashOf | pmud/src/common/hash-library/sha256.cpp:414-419 | the digest of one piece of data, whatever was added before |
| HashExamples.CrcOfExample | pmud/src/common/hash-library/tests/tests.cpp:57 | the CRC text the library's examples list for the bytes 1f 87 7c |
| HashExamples.Md5OfExample | pmud/src/common/hash-library/tests/tests.cpp:57 | the MD5 digest listed for them, reached through all 64 steps |
| HashExamples.Sha1OfExample | pmud/src/common/hash-library/tests/tests.cpp:57 | the SHA-1 digest listed for them, reached through all 80 rounds |
| HashExamples.Sha256OfExample | pmud/src/common/hash-library/tests/tests.cpp:57 | the SHA-256 digest listed for them, reached through all 64 rounds |
| HmacSpec.PadSwitch | pmud/src/common/hash-library/hmac.h:65-67 | combining with 0x5C and 0x36 undoes the inner pad and applies the outer one |
| HmacSpec.XorByteBits | pmud/src/common/hash-library/hmac.h:54-56 | combining two bytes is the exclusive or of their bits, one by one |
| HmacSpec.NestedHashes | pmud/src/common/hash-library/hmac.h:54-72 | the code is the outer hash over the inner one, told by which bits of each key byte either pad flips |
| HmacSpec.InputsDiffer | pmud/src/common/hash-library/hmac.h:54-72 | the inner and the outer hash never see the same message |
| HmacSpec.ShortKeysConfused | pmud/src/common/hash-library/hmac.h:38-45 | keys of up to a block give the same block key exactly when one is the other with zeros appended, and then the same code for every text |
| HmacSpec.LongKeyIsItsDigest | pmud/src/common/hash-library/hmac.h:46-52 | a longer key authenticates as its own digest does |
| Hmac.UsedKey | pmud/src/common/hash-library/hmac.h:37-52 | the key zero-padded, or hashed and then zero-padded, to one block |
| Hmac.Hmac | pmud/src/common/hash-library/hmac.h:35-75 | for every key and message, the hex text of the outer hash over the inner one |
| Graphs.Graph.constructor | pmud/graph/include/graph.h:28-34 | a graph with empty lists |
| Graphs.Graph.Copy | pmud/graph/include/graph.h:36-48 | re-adding every edge gives the very same lists |
| Graphs.Graph.AddDirectedEdge | pmud/graph/include/graph.h:88-93 | the target is appended unless it is there already |
| Graphs.Graph.AddEdge | pmud/graph/include/graph.h:95-100 | both directions when undirected, which keeps an undirected graph symmetric |
| Graphs.Graph.Transpose | pmud/graph/include/graph.h:114-132 | a new graph with the reversed lists when directed, a copy otherwise |
| Graphs.ReversedEdges | pmud/graph/include/graph.h:121-129 | the transpose has exactly the reversed edges, each list strictly ascending |
| Graphs.ReversedOfEdges | pmud/graph/include/graph.h:121-129 | the transpose depends on the edge set only |
| Graphs.ReversedTwice | pmud/graph/include/graph.h:114-132 | two transposes restore the edge set, with sorted lists |
| Graphs.ReversedThrice | pmud/graph/include/graph.h:114-132 | three transposes are exactly one |
| Graphs.ReversedReach | pmud/graph/include/graph.h:114-132 | reachability in the transpose is reachability backwards |
| Bfs.ScanStep | pmud/graph/include/BFS.h:52-59 | examining an edge keeps the invariant: the queue sorted by distance with spread at most one |
| Bfs.FinishStep | pmud/graph/include/BFS.h:60-61 | so does blackening the front and taking it off the queue |
| Bfs.NotedStep | pmud/graph/include/BFS.h:53-57 | a target discovered goes behind all discovered before it, with the earliest vertex that has an edge to it as parent |
| Bfs.DoneStep | pmud/graph/include/BFS.h:60-61 | finishing the front keeps the order of discovery |
| Bfs.ScanFront | pmud/graph/include/BFS.h:51-59 | the inner loop examines every edge of the front, in the order of its list |
| Bfs.SearchMeaning | pmud/graph/include/BFS.h:50-62 | with the queue empty, distances are the least numbers of edges |
| Bfs.BreadthFirstSearch | pmud/graph/include/BFS.h:25-68 | the loop ends; black is exactly reachable, `d` the least number of edges of a path, INT_MAX and no parent when there is none; each parent is the earliest discovered vertex with an edge to its child, and vertices are discovered by parent and then by place in its list; a missing graph is an error |
| Bfs.ListOrder | pmud/graph/include/BFS.h:52-57 | children of one vertex are discovered in the order of its list, and children of different ones in the order of their parents |
| Bfs.SearchDetermined | pmud/graph/include/BFS.h:50-62 | any two searches of one graph from one start have equal marks, parents included, and the same order of discovery |
| Bfs.PrintedMeaning | pmud/graph/include/common.h:17-28 | what the parents spell is a path of existing edges with `d[v]` edges, or the complaint exactly for the unreachable |
| Bfs.PrintPath | pmud/graph/include/common.h:17-28 | the recursion ends for every vertex and writes exactly that |
| DfsTheory.DiscoverStep | pmud/graph/include/DFS.h:64-66 | turning a vertex gray keeps the invariant of stamps, forest, edges and the order of children |
| DfsTheory.FinishStep | pmud/graph/include/DFS.h:75-76 | so does blackening it once all its targets are found |
| Dfs.Search.Visit | pmud/graph/include/DFS.h:64-77 | a visit blackens its vertex, gives everything new but that vertex a parent, leaves everything found before as it was, records the colors it finds, and keeps the invariant; a child is entered only when all its parent lists before it has been found |
| Dfs.Search.Run | pmud/graph/include/DFS.h:98-109 | visiting the start and then every remaining vertex finishes the whole graph, with roots in order and colors recorded |
| Dfs.DepthFirstSearch | pmud/graph/include/DFS.h:79-115 | a finished search whose first stamp is the start's, whose later roots were taken in ascending order, each when all earlier vertices had been found, whose children were discovered in the order of the lists, and whose colors at each discovery are on record; a missing graph is an error |
| DfsTheory.ChildrenInOrder | pmud/graph/include/DFS.h:68-73 | whatever a vertex lists before a child was discovered before that child |
| DfsTheory.SearchDetermined | pmud/graph/include/DFS.h:64-109 | any two finished searches of one graph whose roots follow the same order have equal marks: stamps, parents and colors |
| DfsTheory.TimestampsExact | pmud/graph/include/DFS.h:64-77 | the 2V stamps are exactly 0 to 2V-1, each used once |
| DfsTheory.Parenthesis | pmud/graph/include/DFS.h:64-77 | two intervals are nested or disjoint |
| DfsTheory.NestingIsAncestry | pmud/graph/include/DFS.h:68-73 | nesting is ancestry in the forest of parents |
| DfsTheory.WhitePathTheorem | pmud/graph/include/DFS.h:64-77 | `v` is a descendant of `u` exactly when a path leads from `u` to `v` on which nothing is stamped before `u` |
| DfsTheory.DiscoverKeepsSeen | pmud/graph/include/DFS.h:65-66 | recording the colors at a discovery keeps the record in step with the stamps |
| DfsTheory.ColorsFromStamps | pmud/graph/include/DFS.h:69 | for all `u` and `v`, the color recorded for `v` when `u` was discovered is white exactly when `v` is stamped no earlier than `u` |
| DfsTheory.SeenWhitePathTheorem | pmud/graph/include/DFS.h:64-77 | `v` becomes a descendant of `u` exactly when a path of recorded white vertices leads from `u` to `v` when `u` is discovered |
| DfsTheory.TreeOfFirstReacher | pmud/graph/include/DFS.h:98-109 | the root above `v` is exactly the first vertex, the start first and then ascending, that reaches `v` |
| DfsTheory.FirstTreeIsReach | pmud/graph/include/DFS.h:98-99 | the first tree is exactly what the start reaches |
| DfsTheory.CycleIffBackEdge | pmud/graph/include/DFS.h:64-115 | there is a directed cycle, self-loops included, exactly when some edge leads to an enclosing interval |
| DfsTheory.TopologicalOrder | pmud/graph/include/DFS.h:64-115 | there is none exactly when finishing times fall along every edge |
| KeyedStore.EachKeyAlone | pmud/src/storage/redis_storage.h:59-170 | a run of operations acts on each key by those on that key alone |
| KeyedStore.Twice | pmud/src/storage/redis_storage.h:59-170 | any run of puts, field puts, member additions and deletes has the same effect in two goes as in one |
| YamlStorage.Storage.ValueStore | pmud/src/storage/redis_storage.h:59-66 | a put overwrites a value of any kind |
| YamlStorage.Storage.MapStore | pmud/src/storage/redis_storage.h:82-89 | a field put is refused by a value of another kind |
| YamlStorage.Storage.SetStore | pmud/src/storage/redis_storage.h:136-143 | a member addition is refused by a value of another kind |
| YamlStorage.Storage.DelKey | pmud/src/storage/redis_storage.h:162-170 | a delete removes the whole value |
| YamlStorage.YamlToStorage | pmud/src/storage/yaml_storage.h:13-52 | the recursive walk performs exactly the operations of the load, in order |
| YamlStorage.LoadOutcome | pmud/src/storage/yaml_storage.h:13-52 | for every tree, path and key: what the load makes of the value there, node by node in document order |
| YamlStorage.LoadTwice | pmud/src/storage/yaml_storage.h:13-52 | loading a tree twice leaves the store as loading it once, from any store and in either mode |
| YamlStorage.HistoryForgotten | pmud/src/storage/yaml_storage.h:39-44 | every key touched below the root ends independent of its earlier contents |
| YamlStorage.Untouched | pmud/src/storage/yaml_storage.h:33-47 | all other keys keep what they held |
| YamlStorage.LastReadBack | pmud/src/storage/yaml_storage.h:33-47 | the last container stored under a path is read back as if written on an empty key |
| YamlStorage.AllReadBack | pmud/src/storage/yaml_storage.h:23-47 | every container is read back exactly when containers that share a path write the same |
| YamlStorage.DistinctPaths | pmud/src/storage/yaml_storage.h:39 | containers get distinct paths when sequences hold scalars and no sibling container key, spelled with colons, continues another |
| YamlStorage.PlainIsTidy | pmud/src/storage/yaml_storage.h:39 | trees with unique keys free of underscores and colons, and sequences of scalars, satisfy that |
| YamlStorage.PlainPathsDistinct | pmud/src/storage/yaml_storage.h:39 | distinct lists of such keys spell distinct paths |
| YamlStorage.PlainReadBack | pmud/src/storage/yaml_storage.h:23-47 | in such a tree every scalar is read back: the path to a map holds exactly its scalars under their keys, the path to a sequence exactly its texts, whatever the store held; the root's path has to be free |
| YamlStorage.PlainMerged | pmud/src/storage/yaml_storage.h:13-47 | without idempotence a container directly under the root is written over what its path held, and everything deeper is still read back as written on an empty key |
| YamlStorage.TidyReadBack | pmud/src/storage/yaml_storage.h:23-47 | in such a tree every container is read back, whatever the store held |
| YamlStorage.MapFields | pmud/src/storage/yaml_storage.h:36-37 | a map's scalars are read back under their keys exactly when its path held nothing or a hash; otherwise all are lost |
| YamlStorage.SequenceMembers | pmud/src/storage/yaml_storage.h:23-31 | a sequence of scalars is read back as exactly the set of its texts |
| YamlStorage.SpelledTwice | pmud/src/storage/yaml_storage.h:39-44 | an underscore and a nested map can spell one path, and the first container is then lost |
| ConnectionActors.ConnectionActor.OnPerformWelcome | pmud/src/pnet/connection_actor.h:54-57 | the welcome is passed on |
| ConnectionActors.ConnectionActor.OnToUserPrompt | pmud/src/pnet/connection_actor.h:62-66 | a prompt starts a poll |
| ConnectionActors.ConnectionActor.OnGoodbyeConnection | pmud/src/pnet/connection_actor.h:108-122 | a goodbye closes the socket, leaves the registry and tells the actor to exit |
| ConnectionActors.ConnectionActor.OnFromUserGetInput | pmud/src/pnet/connection_actor.h:67-107 | one poll of the socket: fragments, breaks, lines, quits and the messages they cause |
| Reading.LiteSanitizeAppend | pmud/src/pnet/comm_static.h:80-89 | reading keeps its characters in order, and stops at a zero byte |
| ConnectionActors.LookAnswered | pmud/src/pnet/connection_actor.h:67-107 | for every sequence of looks: the next one is answered by a goodbye exactly when it is a second break with nothing read in between or completes a line that quits, and otherwise by a poll; the line it completes is passed on unless it quits |
| ConnectionActors.LooksAnswered | pmud/src/pnet/connection_actor.h:67-107 | the same for each look of a conversation from a fresh connection |
| LoginControllers.LoginController.OnStart | pmud/src/controllers/login_controller.h:35 | the start asks for the name |
| LoginControllers.LoginController.OnUserInput | pmud/src/controllers/login_controller.h:36-61 | one input: the new fields, the replies and the record |
| LoginControllers.LoginController.HashAndScrubPassword | pmud/src/controllers/login_controller.h:66-73 | the text hashed is the password, which is then blanks of the same length |
| LoginControllers.Automaton | pmud/src/controllers/login_controller.h:33-63 | for every history of inputs: name, password and records are those of the first non-empty inputs and the first confirmation |
| LoginControllers.RecordedOnce | pmud/src/controllers/login_controller.h:46-53 | exactly when at most one credential is recorded |
| LoginControllers.RecordedTwice | pmud/src/controllers/login_controller.h:46-53 | inputs that record two |
| LoginControllers.AskedAsTaken | pmud/src/controllers/login_controller.h:37-58 | for every history: the prompt asks for what the next input is taken as exactly when the input was not empty and not a confirmation that does not match |
| LoginControllers.TypedUnseen | pmud/src/controllers/login_controller.h:37-58 | the echo is off after exactly those inputs that record no credential, and always when a password is expected |
| CommandActors.CommandActor.OnPerformWelcome | pmud/src/controllers/command_actor.h:44-50 | the login controller becomes active and is started |
| CommandActors.CommandActor.OnUserInput | pmud/src/controllers/command_actor.h:51-58 | input goes to the active controller; the fallback prompts |
| CommandActors.CommandActor.OnToUserPrompt | pmud/src/controllers/command_actor.h:59-62 | a prompt is passed on |
| CommandActors.CommandActor.OnToUserEmit | pmud/src/controllers/command_actor.h:63-66 | an emission is passed on |
| CommandActors.CommandActor.OnLoginControllerEnd | pmud/src/controllers/command_actor.h:67-73 | the active controller is told to exit and the default one takes over with a prompt |
| Network.TurnKept | pmud/src/pnet/connection_actor.h:53-123 | every delivery of a message to any actor keeps the invariant |
| Network.Always | pmud/src/pnet/connection_actor.h:53-123 | the invariant holds in every reachable state |
| Network.PollsMatchPrompts | pmud/src/pnet/connection_actor.h:62-107 | polls under way equal prompts handled minus goodbyes sent by polling |
| Network.PollingGoesOn | pmud/src/pnet/connection_actor.h:62-107 | until a poll has sent a goodbye, a poll is under way or a message that leads to one |
| Network.NeverNobody | pmud/src/controllers/command_actor.h:51-58 | with a prompt, poll, line or login end in flight there is an active controller: the null fallback is unreachable |
| Network.PollsPileUp | pmud/src/pnet/connection_actor.h:62-107 | for every history of typeable lines a run exists after which one more poll is in flight than lines were typed |
| Network.OnePromptPerLine | pmud/src/controllers/command_actor.h:51-73 | the welcome and every line heard are answered by exactly one prompt, shown or still to come |
| Network.LinesInOrder | pmud/src/controllers/command_actor.h:51-58 | each controller hears its lines in the order typed, first the login's and then the default controller's |
| Network.CredentialsAsTyped | pmud/src/controllers/login_controller.h:36-53 | the first record is the first non-empty line typed, with the first non-empty line after it, confirmed by an equal line |
| Network.ActiveAlive | pmud/src/controllers/command_actor.h:67-73 | the active controller is alive and staying exactly while the login has not ended twice |
| Network.OneEndKeepsActive | pmud/src/controllers/login_controller.h:46-53 | while no line heard after the confirmation is the blanked password, the login ends at most once and the active controller stays alive |
| Network.EveryHistoryHeard | pmud/src/controllers/command_actor.h:51-73 | for every history of typeable lines a run exists in which the login hears all of it and every end is then handled; the default controller ends up active and told to exit exactly when the history records two credentials or more |
| Network.DefaultTurnedOut | pmud/src/controllers/command_actor.h:67-73 | a reachable state in which the command actor lives and its active default controller has been told to exit |
| Network.NobodyLeftBehind | pmud/src/controllers/command_actor.h:31-39 | whoever outlives the actor above has been told to exit |
| Network.CharactersKept | pmud/src/pnet/connection_actor.h:84-101 | lines and pending input hold exactly the printable characters read, however the text was cut |
| Network.NoQuitTyped | pmud/src/pnet/connection_actor.h:93-94 | in every reachable state, no line passed to the command actor is one that quits |
| Network.HangsUpExactly | pmud/src/pnet/connection_actor.h:67-107 | in every reachable state, each poll has sent a goodbye exactly when it found a break and the last poll before it that found anything had found one too, or when it completed a line that quits; goodbyes and lines are counted from the looks alone |
| LifeRule.NeighborsCounted | life/life.c:335-356 | the eight lookups count the living cells at distance one, with dead cells beyond the border |
| LifeRule.RuleOfLife | life/life.c:358-375 | a cell lives next exactly when it has three living cells around, or lives and has two; a cell with another mark becomes the mark for outside |
| LifeRule.BlinkerComesBack | life/life.c:358-383 | three living cells in a row or column, alone on a large enough board, come back after two generations and not after one |
| LifeRule.LightCone | life/life.c:138-166 | boards that agree within distance k of a cell agree on it after k generations, for any size and k |
| LifeRule.StillForever | life/life.c:146-149 | after an identical generation nothing ever changes |
| LifeRule.ExtinctForever | life/life.c:151-154 | after the last living cell nothing lives again |
| LifeRule.NothingMissed | life/life.c:146-154 | no generation after the end shows other living cells than the last one |
| LifeRule.OscillatorsGoOn | life/life.c:138-166 | a board that comes back is given up exactly when it stands still or is extinct |
| LifeRule.Symmetric | life/life.c:335-383 | mirrored and transposed boards evolve as mirror image and transpose |
| Life.NumNeighbors | life/life.c:335-356 | the counter is the size of the set of living cells around |
| Life.CellAfter | life/life.c:358-375 | the next character of one cell of the board, by the rule, with the mark for any other character |
| Life.CalcNextGeneration | life/life.c:377-383 | the other buffer receives the next generation, the current one is read only |
| Life.CompareBoards | life/life.c:259-268 | zero exactly for equal boards |
| Life.CheckBoard | life/life.c:248-257 | whether anything lives |
| Life.CopyBoard | life/life.c:229-235 | the destination becomes the source |
| Life.InvertBoard | life/life.c:237-246 | the board becomes its inverse |
| LifeRule.InvertedTwice | life/life.c:237-246 | inverting a board twice restores it exactly when every cell was alive or dead |
| Life.AllocateBoard | life/life.c:186-195 | a new board of dead cells |
| Life.ClearBoard | life/life.c:208-214 | every cell becomes the given character |
| Life.Play | life/life.c:116-181 | play stops at the first generation that is identical, extinct or followed by a key, and never later than the limit; one buffer then holds the last generation computed |

## Left out

- Sockets, `accept` and `bind`, telnet output, logging, curses drawing, files and command lines: input and output. Text that a read returns, and keys that are pressed, are parameters.
- The actor framework's scheduler, the Redis client and the YAML parser: the model has ordered channels with arbitrary interleaving, a keyed store, and a tree with text keys. A lost connection to the store is not modelled.
- The 2048 literal CRC table entries: the tables are defined by the recurrence that generated them.
- Big-endian branches, pointer alignment and object lifetimes; the SHA2-224 seed switch; random salts (a recorded credential carries the text that was hashed).
- Five hash classes with the same streaming code are one class, `Hasher`, whose algorithm is fixed at construction; SHA3 differs from Keccak only in its first pad byte.
- Cryptographic strength of any kind. That MD5's 64 additive constants are digits of sines is not stated; the worked example runs through all of them.
- Bfs.BreadthFirstSearch: the source holds a reference to the queue's front across its removal (BFS.h lines 51 to 61); the model takes the vertex by value, as intended. Vectors are sequences that the loop reassigns, and vertex counts are unbounded.
- Bfs.PrintPath: the source drops its output stream on the recursive call (common.h line 24); the model passes it on. Output is a sequence of vertices and the complaint, not text.
- Dfs.DepthFirstSearch: time and vertex numbers are unbounded where the source uses `int`.
- Drawing of graphs and matrices; complete and random edge sets.
- `MockStorage::del_key`: it removes a key from one namespace only; the loader's properties need a whole-key delete.
- HmacSpec.ShortKeysConfused: that keys with different block keys give different codes for some text would be a statement about collisions of the hash.
- Timeouts, the server's accept loop and shutdown order beyond a goodbye sent from outside at any time.
- Reading, randomizing and printing boards, and setting single cells.
