# YAMemcached, modelled and proved in Dafny

YAMemcached is a multi-threaded memcached server. This project models its data structures and
codecs and proves what they are for:

- the lock-free LRU hash table (`src/LFLRUHashTable.h`): its link words, its slot locks and both
  together as transition systems over any number of threads with one step per atomic access, and
  the whole class over arrays for one caller at a time;
- the threaded red-black tree (`src/trbtree.hh`);
- xxHash, one-shot and streaming, in both widths (`src/xxhash.c`);
- the two-lane single-producer single-consumer queue (`src/LFSPSCQueue.h`);
- the keyword matcher: its compiler and its interpreter (`src/FastSubstringMatcher.*`);
- the 24-byte string (`src/string.hpp`), decimal conversion (`src/Common.cpp`) and the text header
  parser (`src/RequestProcessor.cpp`).

`dafny verify dfyconfig.toml` checks everything.

## How the table is modelled

**Link words** (`LinkWords`, `LinkInvariant`, `LinkSteps`, `LinkEnds`, `LinkTheorems`, `LinkTrims`). A state is the
64-bit link word of every element, the list fields of every thread and a program counter per
thread; `Step` runs one thread to its next atomic load, store or compare-and-swap. A weak
compare-and-swap may fail spuriously. What the index answers (miss, hit, duplicate) is a free choice
of the environment, so the theorems hold whatever the index does. The invariant reads the words
through the lock marks with a ghost view that gives each element its place, its neighbours and the
threads that hold its two halves.

**Index** (`Index`, `IndexTable`, `IndexMap`, `IndexRemove`, `IndexEngine`). Probing, insertion and
backward-shift deletion as functions on the slot contents an operation has seen. Keys and values
are only hashed, compared and copied by the source, so both are integers; `home` is an arbitrary
hash function into the slots. Deletion compares `home <= deletedIdx` without wrapping
(`src/LFLRUHashTable.h:365`), so it can lose keys. `ShiftIsSafe`, a condition on the table before the
call, says exactly when it does not; `NoCrossing` (last or first slot free) implies it.

**Slot locks** (`SlotLocks`, `SlotInvariant`, `SlotSteps`, `SlotTheorems`). Threads lock slot after slot
from the home slot on, decide, write the element and give the slots back one by one. A run records
when operations are invoked, take their last lock and return. Whole-run claims are for runs whose
evictions are `Benign`, that is safe in the sense above: after an unsafe one an element can end up
in two slots, and neither serial answers nor a free slot are guaranteed any more.

**Both together** (`Composed`). Whole calls of any number of threads, each going from the one system
to the other as the source does: what the index answers decides how the lists go on, and what comes
off a tail is removed from the index. Every such run is a run of each system, so their theorems hold
here, and each element is on a list exactly when the index says so.

**A call by one thread alone** (`LoneSlots`, `LoneLinks`, `LoneLists`, `LoneCalls`, `LoneRuns`). What the steps
add up to: after any run that leaves all threads between calls, words and slots spell out exactly
one cache (`LoneCalls.SpeltAtRest`), and a thread that then calls and goes on alone comes to the state
that spells out what `LruCache.Step` makes of it, with the answer it gives, or to an overrun exactly
when the cache says so. The index part is taken through the slots (`LoneSlots`), the list part
through the link words (`LoneLinks`, and as rows in `LoneLists`). So the step system, the class and
`LruCache.Step` are three descriptions of the same calls.

**The class** (`LruRows`, `LruCache`, `LruTheorems`, `LruMoves`, `LinkChains`, `SlotRuns`, `LruTable`). `LruCache.Step`
says what one call does to index, LRU lists and free lists together; `LruTable.LFLRUHashTable` does it
on the arrays, with the source's loops, and is proved equal to it. A lone caller never meets a lock,
so the retry branches are asserted unreachable there instead of modelled. `LruCache.Step` knows no
lock buffer, so a run of the class is a run of it up to the first overrun; with fewer than 246
elements there is none (`LruTable.FewFit`). `LruMoves` says what a call moves, in terms of the rows
before and after alone. `LruFailures` has runs from the constructor on that go wrong.

**Sealed predicates** (`Sealing`). Predicates such as `Kept`, `Laid`, `Probed`, `Made` or `Gets` are their plain
counterparts behind a trigger, so that the solver unfolds them only where a lemma asks for it.

## Findings

- Deletion loses keys when a run crosses the last slot: `IndexRemove.CrossingLosesKeys` gives a
  case with four slots, `LruFailures.CrossingRun` two insertions into a new table that meet it, and
  `IndexRemove.RemoveMeaning` the exact condition.
- A call that needs more than 246 slots stores a lock behind the last entry of its buffer, which is
  the head of the next thread's list (`src/LFLRUHashTable.h:72-82`): the test that aborts comes one
  entry late. `LruTable.LFLRUHashTable.Get` and its siblings give the exact condition and
  `LruTable.FewFit` a bound that excludes it; `LruFailures.CrowdOverruns` reaches it from the
  constructor on, by 246 insertions and a lookup.
- The lookup of a keyword reads `spotSelectorMatch[size]` unguarded, so it is in range if and only
  if the input is shorter than 256 bytes (`KeywordMatcher.FirstKeywords`, `UnguardedFails`). The text
  header parser hands it a first token of any length, so a longer one reads outside the array
  (`TextHeader.OutsideIff`, `LongTokenOutside`). The guard of the other overload lets 256 through
  exactly when some keyword has 255 bytes (`KeywordMatcher.GuardFailsIff`, `GuardFails`).
- A second SetKeywords keeps the lists for lengths that no longer occur; the matcher is that of the
  new keywords if and only if there are none (`KeywordMatcher.StaleLists`). An old list can name a
  place behind the end of the new keywords (`KeywordMatcher.StaleOutside`).
- The matcher's skip counts are exact only for groups nested at most one deep
  (`Matcher.SkipExactIffFlat`). With deeper groups some input is always misread
  (`MatcherTheorems.DeepMisreads`), and it can be a keyword: with the keywords aaa, aab, aba and bba
  the last is taken for the third (`KeywordMatcher.DeepKeywordsMisread`). A keyword is matched as
  itself if and only if the groups before its own let it pass (`KeywordMatcher.KeywordMatchedIff`),
  which they do when only the last group of each level is nested deeper
  (`KeywordMatcher.TidyKeywordsMatch`). That condition speaks of the walk over single groups; the
  ones to check on the keywords alone are `Shallow` (exact for all inputs) and `Tidy` (enough for all
  keywords). The server's own commands are not affected.
- The packed string sizes are mistaken for a short string exactly when the size has its highest bit
  set and the capacity does not (`SsoLayout.MistakenIff`); with capacity >= size that cannot happen.
- A moved-from string has size 0 but keeps its first byte, so it is NUL-terminated if and only if that
  byte is 0 (`SsoStrings.MoveLeavesNulIff`); after moving "hello" it is not
  (`SsoStrings.MovedHelloUnterminated`).
- `atoui` adds in a signed int. For up to ten bytes from the character 0 on, letters included, its
  result is defined if and only if the sum is below 2^31 (`Decimal.AtouiDefinedIff`), and up to eight
  bytes of any kind never reach that (`Decimal.ShortDefined`); 2147483648 and nine letters z do
  (`Decimal.AtouiOverflows`).

- A storage line with noreply is ended one byte early: the parser skips nine bytes from the space
  where eight and the line end are, so the line feed is taken for the first byte of the data
  (`HeaderLimits.NoReplyBack`).
- A get, set or insertOrSet does not bring forward an element that is among the last two of its
  list (nor the second): such an element is as close to eviction after the call as before
  (`LruMoves.UsedLate`).

## Model

| member | source | states |
|---|---|---|
| LinkWords.Step | src/LFLRUHashTable.h:153-311 | every atomic access of unlinkElement, linkHead, unlinkTail and the free-list code around them is one step; a step keeps the shape of the state |
| LinkSteps.UnlinkStep | src/LFLRUHashTable.h:153-266 | every step of unlinkElement, in any state others may have left, keeps the invariant of lists, locks and hands |
| LinkEnds.LinkStep | src/LFLRUHashTable.h:531-551 | every step of linkHead by the owner keeps it, against concurrent unlinkers |
| LinkEnds.TrimStep | src/LFLRUHashTable.h:269-311 | every step of unlinkTail keeps it |
| LinkEnds.StepPreserves | src/LFLRUHashTable.h:725-785 | every step of every thread keeps it |
| LinkTheorems.FindChain | src/LFLRUHashTable.h:71-77 | from the invariant each list is a finite chain without repetition that contains exactly its elements |
| LinkTheorems.ListsAlwaysIntact | src/LFLRUHashTable.h:153-311 | in every interleaving of any number of threads each LRU list and free list stays a finite acyclic chain, head and tail are its ends at every program counter but the one that stores them, each of the threads * (n / threads) elements is in exactly one list, free list or hand, and a thread that has neither popped nor is refilling has a non-empty free list |
| LinkTheorems.HandsAreExclusive | src/LFLRUHashTable.h:153-311 | no element is ever in the hands of two threads |
| LinkTheorems.NeverWild | src/LFLRUHashTable.h:727-730 | no thread ever follows a link outside the element storage, so the free list is never empty when it is read |
| LinkTrims.TrimEnteredIff | src/LFLRUHashTable.h:770 | a step brings its thread to unlinkTail exactly when it looks for a spare element after an insertion and finds none |
| LinkTrims.TrimsOnlyWhenBare | src/LFLRUHashTable.h:770-772 | in every interleaving a thread that takes the tail off its list has an empty free list |
| LinkTheorems.QuiescentWords | src/LFLRUHashTable.h:646-665 | when every thread is between operations no word is locked and the words are exactly the lists |
| Index.Probe | src/LFLRUHashTable.h:328-345 | the probe ends at the first free slot or the first slot with the key, and at none before |
| Index.Need | src/LFLRUHashTable.h:732-764 | the number of slots an operation locks: it stops there and at no fewer |
| IndexTable.ShiftContents | src/LFLRUHashTable.h:356-381 | the backward shift permutes the run and drops exactly the deleted element |
| IndexTable.Stops | src/LFLRUHashTable.h:640-641 | with fewer elements than slots every operation meets a free slot and stops |
| IndexMap.GetMeaning | src/LFLRUHashTable.h:798-838 | on a sound table get answers what the map holds and leaves the index alone |
| IndexMap.SetMeaning | src/LFLRUHashTable.h:945-976 | set replaces the value of a stored key and refuses any other |
| IndexMap.InsertMeaning | src/LFLRUHashTable.h:876-908 | insert and insertOrSet add a new key; on a stored one the first refuses and the second replaces; the table stays sound |
| IndexMap.AnswersIffSound | src/LFLRUHashTable.h:798-838 | lookups are right for all keys exactly when every stored key is reachable from its home slot |
| IndexRemove.RemoveMeaning | src/LFLRUHashTable.h:315-383 | deletion finds its element, drops exactly its key and element, and leaves all other keys reachable if and only if ShiftIsSafe |
| IndexRemove.NoCrossingIsSafe | src/LFLRUHashTable.h:361-371 | a table whose last or first slot is free can always be shifted safely |
| IndexRemove.CrossingLosesKeys | src/LFLRUHashTable.h:365-371 | a table of four slots in which deleting one key makes another unreachable |
| IndexEngine.ApplyMeets | src/LFLRUHashTable.h:315-383 | on a sound table every operation of the probing index has its map meaning |
| IndexEngine.ExactLawful | src/LFLRUHashTable.h:725-785 | so the rest of the cache may treat it as any index that has it |
| SlotSteps.TakeLastStep | src/LFLRUHashTable.h:577-589 | taking the last slot lock fixes the operation's result and keeps the lock invariant |
| SlotSteps.UnlockStep | src/LFLRUHashTable.h:608-618 | giving back one slot keeps it, while other threads already lock the slots given back |
| SlotTheorems.RunsAreSerial | src/LFLRUHashTable.h:577-618 | every interleaved run of get, set, insert, insertOrSet and eviction answers like the serial run in the order of last slot locks, and that run is a finite map |
| SlotTheorems.EndsOnlyInOverruns | src/LFLRUHashTable.h:340-343 | a run ends only in a thread that has locked 246 slots and needs another; an eviction always finds its element |
| SlotTheorems.NoDeadlock | src/LFLRUHashTable.h:577-618 | in every reachable state some thread inside an operation is not waiting: a cycle would have to fill the ring |
| LruCache.CallMeaning | src/LFLRUHashTable.h:725-839 | every call answers as the map does, changes it as its name says apart from the key of the evicted tail, finds what it evicts, and keeps partition, free lists and soundness if and only if its eviction is safe |
| LruCache.EvictedGood | src/LFLRUHashTable.h:770-782 | the tail is always indexed, so removeFromHashPos in an eviction never fails |
| LruTheorems.RunGood | src/LFLRUHashTable.h:646-665 | over all runs elements stay partitioned between LRU lists and free lists, every free list is non-empty, and an element is on an LRU list exactly when it is indexed |
| LruTheorems.StartGood | src/LFLRUHashTable.h:635-668 | the constructor's state has all of this, an empty map and elementsPerThread elements for each thread |
| LruTheorems.SafeWithoutCrossing | src/LFLRUHashTable.h:770-776 | an eviction in a table without a crossing run is safe |
| LruTheorems.TurnAges | src/LFLRUHashTable.h:269-311 | one call moves an element at most one step towards eviction, unless it moves it to a head |
| LruTheorems.GrownAges | src/LFLRUHashTable.h:869-922 | a new key moves the elements of its owner exactly one step, and evicts x exactly when x has no room left |
| LruTheorems.Survives | src/LFLRUHashTable.h:725-785 | calls of any threads: an element with room for all of them stays, and its key stays stored |
| LruTheorems.JustUsedSurvives | src/LFLRUHashTable.h:531-551 | one thread from the constructor on: what is at the head survives the next elementsPerThread - 2 calls whatever they are |
| LruTheorems.EvictedExactlyThen | src/LFLRUHashTable.h:770-782 | the bound is exact: with new keys only, x is evicted by the first call that finds it without room and by none before |
| LruMoves.HitMoves | src/LFLRUHashTable.h:816-820 | a get, set or insertOrSet that finds its key two places or more from both ends of a list brings that element to the head of the caller's list and leaves all others in their rows and order; nearer the ends, and for a refused insert, all rows are as before |
| LruMoves.OthersInOrder | src/LFLRUHashTable.h:531-551 | any two other elements of a row keep row and order |
| LruMoves.MissMoves | src/LFLRUHashTable.h:832-838 | get and set of a key that is not stored move nothing |
| LruMoves.NewKeyMoves | src/LFLRUHashTable.h:905-919 | a new key brings the first spare element to the head; if it was the last one, the tail of the list becomes the spare element |
| LruMoves.UsedSurvivesAll | src/LFLRUHashTable.h:725-785 | calls of any threads: a key just got, set or overwritten survives the next n - 2 of them if its thread and the callers hold n elements or more |
| LruMoves.UsedSurvives | src/LFLRUHashTable.h:945-976 | one thread from the constructor on: a key got, set or overwritten survives the next elementsPerThread - 2 calls whatever they are, unless its element was second or among the last two |
| LruMoves.UsedLate | src/LFLRUHashTable.h:153-197 | an element found among the last two is as close to eviction as before |
| LinkChains.BridgedRep | src/LFLRUHashTable.h:227-260 | the writes of unlinkElement take an inner element out of its list and touch no other list |
| LinkChains.HeadedRep | src/LFLRUHashTable.h:531-551 | those of linkHead put it at the head |
| LinkChains.TrimmedRep | src/LFLRUHashTable.h:271-310 | those of unlinkTail take the last element off |
| LruTable.LFLRUHashTable.constructor | src/LFLRUHashTable.h:635-668 | the arrays represent the starting cache |
| LruTable.LFLRUHashTable.UnlinkElement | src/LFLRUHashTable.h:153-266 | succeeds exactly for elements at least two places from both ends and takes them out of their list |
| LruTable.LFLRUHashTable.LinkHead | src/LFLRUHashTable.h:531-551 | prepends to the list of the thread, all other lists unchanged |
| LruTable.LFLRUHashTable.UnlinkTail | src/LFLRUHashTable.h:269-311 | returns and removes the last element |
| LruTable.LFLRUHashTable.Acquire | src/LFLRUHashTable.h:798-828 | the probing loop locks exactly the slots the operation needs, or overruns the lock buffer exactly when these are more than its 246 entries |
| LruTable.LFLRUHashTable.Unlock | src/LFLRUHashTable.h:608-618 | writes the new contents to the slots held, in ring order |
| LruTable.LFLRUHashTable.RemoveFromHash | src/LFLRUHashTable.h:315-383 | both loops together compute the deletion of the index, in place |
| LruTable.FewFit | src/LFLRUHashTable.h:640-641 | an operation locks at most one slot more than there are elements, so fewer than 246 elements never overrun it |
| LruTable.LFLRUHashTable.Get | src/LFLRUHashTable.h:788-839 | overruns the lock buffer exactly when more than 246 slots are needed; otherwise answers and leaves the cache as LruCache.Step says (what that moves is LruMoves.HitMoves), in order again if and only if the eviction was safe |
| LruTable.LFLRUHashTable.Set | src/LFLRUHashTable.h:925-978 | likewise; what that moves is LruMoves.HitMoves |
| LruTable.LFLRUHashTable.Insert | src/LFLRUHashTable.h:869-922 | likewise, with eviction |
| LruTable.LFLRUHashTable.InsertOrSet | src/LFLRUHashTable.h:725-785 | likewise, a hit moving its element as LruMoves.HitMoves says and a new key as LruMoves.NewKeyMoves |
| LruFailures.CrowdDeep | src/LFLRUHashTable.h:798-828 | a lookup that misses locks more slots than there are stored keys with its home |
| LruFailures.CrowdOverruns | src/LFLRUHashTable.h:81 | from the constructor with at least 247 elements, 246 insertions of keys with one home leave a cache in order in which the next lookup overruns the buffer |
| LruFailures.CrossingRun | src/LFLRUHashTable.h:365-371 | from the constructor with two elements and four slots, the second insertion evicts unsafely and the key it has stored is not found |
| Composed.Step | src/LFLRUHashTable.h:725-839 | one atomic access of a thread inside a whole call, on link words or slots |
| Composed.KeeperStep | src/LFLRUHashTable.h:725-785 | a step on the link words hands an element over only when the index has taken it or when it has come off the tail |
| Composed.StepJoined | src/LFLRUHashTable.h:725-839 | in every step the index knows exactly which elements a thread has to itself, and each index operation may be called where it is |
| Composed.Projects | src/LFLRUHashTable.h:725-839 | every run of whole calls is a run of the link words and a run of the slot locks |
| Composed.ListedIffIndexed | src/LFLRUHashTable.h:725-785 | in every interleaving of whole calls listed elements are indexed, free ones are not, and an indexed element off the lists is in some hand; between calls an element is on an LRU list if and only if it is in a slot |
| Composed.CallsAreSerial | src/LFLRUHashTable.h:577-618 | and the calls answer as a finite map in the order of their last slot locks |
| LoneSlots.AnswersAlone | src/LFLRUHashTable.h:577-618 | an index operation of a thread that has the index to itself writes to slots and elements what the serial operation leaves and gives its result, or ends in an overrun exactly when it needs more than 246 slots |
| LoneLinks.Heads | src/LFLRUHashTable.h:531-551 | the steps of linkHead are one update of the words |
| LoneLists.MovesElement | src/LFLRUHashTable.h:153-266 | the steps of unlinkElement and linkHead of a lone thread bring an inner element to the head of its list and change nothing for one of two at either end |
| LoneLists.TakesTail | src/LFLRUHashTable.h:269-311 | the steps of unlinkTail take the last element off the list |
| LoneCalls.LoneCall | src/LFLRUHashTable.h:725-839 | all threads between calls, a lone call ends with all between calls again, lists, free lists and index read from words and slots being those LruCache.Step leaves, and its events those of that call; or in an overrun exactly when the cache says so |
| LoneRuns.RunSpelt | src/LFLRUHashTable.h:725-839 | after every interleaving of whole calls that leaves all threads between calls, words and slots spell out a cache that is in order |
| LoneRuns.SpeltOnce | src/LFLRUHashTable.h:71-77 | and only one |
| LoneRuns.LoneCallOfRun | src/LFLRUHashTable.h:725-839 | so after every such run a lone call is one step of LruCache on what was read before |
| RbTree.FixedBalanced | src/trbtree.hh:612-713 | the fix-up loop turns a tree with one new red node into one without red-red edges, with equal black heights and a black root |
| RbTree.FixedOrder | src/trbtree.hh:612-713 | and keeps the order of all nodes |
| RbTree.HeightBound | src/trbtree.hh:311 | a red-black tree with n nodes is at most 2 log2(n + 1) high |
| RbArena.SwungWhole | src/trbtree.hh:632-658 | the link and tag updates of a rotation, trail repair included, rotate the tree they represent and keep every trail |
| RbArena.PlantedWhole | src/trbtree.hh:598-610 | the link updates for a new node make it a red leaf with trails to its neighbours |
| ThreadedTree.StackFits | src/trbtree.hh:553-579 | below 2^23 elements the ancestor stacks never need more than 47 of their 48 entries |
| ThreadedTree.TrailsLeadToNeighbours | src/trbtree.hh:598-610 | every left or right trail leads to the predecessor or successor in order, or is null at the ends |
| ThreadedTree.TRBTree.Search | src/trbtree.hh:561-584 | finds the key, or fills the stacks with the way to the place where it belongs |
| ThreadedTree.TRBTree.FixUp | src/trbtree.hh:612-713 | the loop on the stacks, in place, computes the fix-up of the tree |
| ThreadedTree.TRBTree.TryInsert | src/trbtree.hh:550-716 | leaves tree and nodes unchanged if the key exists, otherwise adds exactly one node in order; the result is again ordered, red-black and threaded |
| ThreadedTree.TRBTree.TryFind | src/trbtree.hh:986-1008 | finds a node with the key if and only if there is one |
| ThreadedTree.TRBTree.Walk | src/trbtree.hh:528-547 | the destructor deletes every node once in ascending order, and every node it reads, loop guards included, is not yet deleted at that read |
| XxStream.StripesApart | src/xxhash.c:588-675 | accumulators and remainder of a concatenation come from those of its first part and the rest |
| XxStream.OneShot | src/xxhash.c:261-335 | computes the hash of the input |
| XxStream.StreamState.Reset | src/xxhash.c:561-585 | starts over with nothing fed |
| XxStream.StreamState.Update | src/xxhash.c:588-675 | accumulators are always the fold of the whole stripes fed, the buffer holds exactly the remainder |
| XxStream.StreamState.Digest | src/xxhash.c:689-728 | gives the hash of everything fed |
| XxStream.Streamed | src/xxhash.c:742-922 | reset, updates and digest give the one-shot hash for every cutting into chunks, empty ones included, in both widths |
| XxStream.InjectiveOnWords | src/xxhash.c:309-334 | a scheme whose steps lose nothing separates all inputs of one word |
| XxHash32.BytesLoop | src/xxhash.c:321-326 | the loop over the last bytes |
| XxHash32.OneShot32 | src/xxhash.c:261-335 | stripe, word and byte loops together compute XXH32 |
| XxHash32.Injective32 | src/xxhash.c:309-334 | with any seed XXH32 is injective on four-byte inputs |
| XxHash64.SmallLoop | src/xxhash.c:454-466 | the branch and loop over fewer than eight bytes |
| XxHash64.OneShot64 | src/xxhash.c:366-475 | stripe, word and byte loops together compute XXH64 |
| XxHash64.Injective64 | src/xxhash.c:438-474 | with any seed XXH64 is injective on eight-byte inputs |
| XxKnown.Known32 | src/xxhash.c:261-335 | the hash of the bytes 0 to 20, through a stripe, a word and a byte |
| XxKnown.Known64 | src/xxhash.c:366-475 | the hash of the bytes 0 to 44, through a stripe, a word, a half word and a byte |
| XxSeeded.Letter32 | src/xxhash.c:306 | the hash of the byte "a" with seed 0 is 0x550D7456 |
| XxSeeded.Below32 | src/xxhash.c:309-334 | the hash of the bytes 0 to 14, below a stripe, with a seed that is not 0 |
| XxSeeded.Exact32 | src/xxhash.c:278-304 | the hash of one stripe of zero bytes with seed 1 |
| XxSeeded.Above32 | src/xxhash.c:261-335 | the hash of the bytes 0 to 20 with a seed that is not 0 |
| XxSeeded.Letter64 | src/xxhash.c:438 | the hash of the byte "a" with seed 0 is 0xD24EC4F1A98C6E5B |
| XxSeeded.Half64 | src/xxhash.c:438-474 | the hash of the bytes 0 to 11, a word and a half word, with a seed that is not 0 |
| XxSeeded.Below64 | src/xxhash.c:438-474 | the hash of the bytes 0 to 30, below a stripe, with a seed that is not 0 |
| XxSeeded.Exact64 | src/xxhash.c:383-436 | the hash of one stripe of zero bytes with seed 1 |
| XxSeeded.Above64 | src/xxhash.c:366-475 | the hash of the bytes 0 to 44 with a seed that is not 0 |
| SpscQueue.MaskIsNext | src/LFSPSCQueue.h:106-109 | for every buffer size the constructor admits the mask gives the successor in the ring |
| SpscQueue.StepInv | src/LFSPSCQueue.h:38-103 | every step of producer and consumer, on whatever lanes stale counters put them, keeps the lanes |
| SpscQueue.LanesAreFifo | src/LFSPSCQueue.h:38-103 | in every interleaving what came out of a lane and what is in it, in order, is what went in: nothing is lost, repeated or overtaken |
| SpscQueue.NoTornReads | src/LFSPSCQueue.h:48-49 | no slot is written while it is read |
| SpscQueue.AccessesInRange | src/LFSPSCQueue.h:78-83 | ring accesses stay in range and a pop returns the oldest item of its lane |
| SpscQueue.FailuresAreJustified | src/LFSPSCQueue.h:53-70 | a failed push saw each lane full in memory during the call, a failed pop saw each empty |
| SpscQueue.PushAlone | src/LFSPSCQueue.h:38-71 | undisturbed, a push lands on the lane of the counter if that has room, else on the other, and fails exactly when both are full; the counter moves exactly when the first lane is full |
| SpscQueue.PushedItems | src/LFSPSCQueue.h:45-51 | and the lane it lands on has its value at the end, the other lane all it had |
| SpscQueue.PopAlone | src/LFSPSCQueue.h:72-103 | undisturbed, a pop takes the oldest item of the lane the counter does not name, else of the other, and fails exactly when both are empty; the counter moves exactly when the first is empty |
| SpscQueue.PoppedItems | src/LFSPSCQueue.h:78-84 | and nothing else leaves either lane |
| SpscQueue.Capacity | src/LFSPSCQueue.h:20-31 | into a new queue exactly the first 2 * (buffer_size - 1) pushes succeed |
| Matcher.BestIs | src/FastSubstringMatcher.cpp:62-67 | the chosen position has most different characters and is the leftmost such |
| Matcher.SolveMatchers | src/FastSubstringMatcher.cpp:83-132 | terminates and appends the list of the decision tree, for all sets of different non-empty keywords |
| Matcher.CompiledFits | src/FastSubstringMatcher.cpp:83-132 | every list has exactly one leaf per keyword, and every skip stays within it |
| Matcher.SkipExactIffFlat | src/FastSubstringMatcher.cpp:121-130 | a skip count equals the encoded length of its group if and only if the group is flat |
| Matcher.MatchSpots | src/FastSubstringMatcher.h:25-50 | the walker reads only valid spots and characters and stops at a leaf or exactly at the end |
| Matcher.WalkIsDecide | src/FastSubstringMatcher.h:25-50 | with groups nested at most one deep walking the list is deciding by the tree |
| MatcherTheorems.WalkIsDecideIffShallow | src/FastSubstringMatcher.cpp:121-130 | for all inputs it does, if and only if groups are nested at most one deep |
| MatcherTheorems.DecideFinds | src/FastSubstringMatcher.cpp:110-131 | the tree leads every keyword to its own leaf |
| MatcherTheorems.DeepMisreads | src/FastSubstringMatcher.h:42-45 | with deeper groups some input is accepted that no keyword agrees with |
| MatcherExact.MatchedIff | src/FastSubstringMatcher.h:25-50 | at any depth of nesting the walk gives a keyword its own index if and only if on every level the groups before its own let it pass |
| KeywordMatcher.FastSubstringMatcher.SetKeywords | src/FastSubstringMatcher.cpp:135-171 | one list for each length that occurs, compiled from the keywords of that length; the lists for other lengths stay as they were |
| KeywordMatcher.StaleLists | src/FastSubstringMatcher.cpp:138-170 | what a second call leaves, and exactly when the lists are those of the new keywords |
| KeywordMatcher.StaleOutside | src/FastSubstringMatcher.h:63-66 | a list left from an earlier call answers with a place outside the new ones |
| KeywordMatcher.FirstKeywords | src/FastSubstringMatcher.h:27-28 | after a first call the matcher answers for the keywords, and the lookup is in range if and only if the input is shorter than 256 bytes |
| KeywordMatcher.UnguardedFails | src/FastSubstringMatcher.h:27-28 | an input of 256 bytes reads outside the array |
| KeywordMatcher.GuardFailsIff | src/FastSubstringMatcher.h:54-55 | after a first SetKeywords the guarded overload reads out of range exactly for 256 bytes when some keyword has 255, and below 256 bytes names the keyword whose index the walk gives |
| KeywordMatcher.GuardFails | src/FastSubstringMatcher.h:54-55 | such a keyword and such an input |
| KeywordMatcher.FastSubstringMatcher.MatchSubstring | src/FastSubstringMatcher.h:25-50 | out of range from 256 bytes on, otherwise the answer of the list for the input's length |
| KeywordMatcher.FastSubstringMatcher.MatchText | src/FastSubstringMatcher.h:52-77 | `TextOf` of the lists: none above maxKeywordSize, otherwise the keyword answered, or a read outside the lists or the keywords |
| KeywordMatcher.HitsKeyword | src/FastSubstringMatcher.h:63-66 | an index answered is that of a keyword of the input's length |
| KeywordMatcher.KeywordsMatch | src/FastSubstringMatcher.cpp:135-171 | every keyword whose class needs at most two tested positions is matched as itself |
| KeywordMatcher.KeywordMatchedIff | src/FastSubstringMatcher.cpp:121-130 | any keyword is, if and only if it is reached |
| KeywordMatcher.TidyKeywordsMatch | src/FastSubstringMatcher.cpp:121-130 | every keyword is when only the last group of each level is nested deeper |
| KeywordMatcher.AcceptedAgrees | src/FastSubstringMatcher.h:25-50 | an accepted input has the keyword's length and agrees with it at every tested position |
| KeywordMatcher.CommandsMatch | src/Server.cpp:29-46 | every command of the server is matched as itself |
| KeywordMatcher.DeepKeywordsMisread | src/FastSubstringMatcher.cpp:123-124 | four keywords of which the last is taken for the third |
| SsoLayout.PackRoundTrip | src/string.hpp:213-250 | packed size and capacity come back, whatever they are |
| SsoLayout.MistakenIff | src/string.hpp:199-201 | exactly when the packed form reads as a short string |
| SsoLayout.NeverMistaken | src/string.hpp:199-229 | never when the capacity is at least the size |
| SsoLayout.ShortBack | src/string.hpp:204-211 | a short size comes back, and at 23 bytes the size byte is the NUL |
| SsoStrings.MakeStep | src/string.hpp:112-123 | a constructed string has exactly its bytes, its size, a terminating NUL and the capacity 23 or, if it is longer, its size, and no other string changes |
| SsoStrings.CapacityFits | src/string.hpp:177-183 | after any operations a string's capacity is 23 or, if it is longer, its size, and its buffer has one byte more |
| SsoStrings.AssignStep | src/string.hpp:142-146 | assignment copies the value, frees the old buffer once, also onto itself, and touches no other string |
| SsoStrings.MoveAssignStep | src/string.hpp:148-153 | move assignment hands over the value and empties the source |
| SsoStrings.MoveLeavesNulIff | src/string.hpp:137-153 | a moved-from string is NUL-terminated if and only if the first byte it keeps is 0 |
| SsoStrings.MovedHelloUnterminated | src/string.hpp:193-195 | after moving "hello" away it is not |
| SsoStrings.FreedExactlyOnce | src/string.hpp:112-159 | over any sequence of operations every buffer has one owner, nothing is freed twice, and no buffer outlives the strings |
| Decimal.Itoa | src/Common.cpp:206-226 | writes the digits of any 64-bit value and a space, nothing else |
| Decimal.AtoullLoop | src/Common.cpp:94-143 | the fall-through sum in 64-bit arithmetic is the number modulo 2^64, zero for no or too many digits |
| Decimal.PartialSums | src/Common.cpp:94-143 | no partial sum exceeds the number, so none wraps |
| Decimal.RoundTrip | src/Common.cpp:42-143 | what is written in decimal is read back: 64 bits by atoull, 16 by atous, and everything below 2^31 by atoui |
| Decimal.AtouiDefinedIff | src/Common.cpp:64-92 | on up to ten bytes that count no less than zero, no product or sum of atoui overflows its int if and only if the sum is below 2^31 |
| Decimal.ShortDefined | src/Common.cpp:64-92 | on up to eight bytes of any kind none does |
| Decimal.AtouiOverflows | src/Common.cpp:64-92 | two inputs on which one does: 2147483648 and nine letters |
| Decimal.AtouiOfText | src/Common.cpp:64-92 | so a value of up to ten digits can be read exactly if it is below 2^31 |
| Decimal.WriteAndRead | src/Common.cpp:206-226 | the whole way through both buffers |
| TextHeader.RequestInfo.ParseHeader | src/RequestProcessor.cpp:366-473 | the parser's loops compute `Parse`, failures, aborts and the read outside the matcher's array included |
| TextHeader.OutsideIff | src/RequestProcessor.cpp:371-378 | that read happens exactly for a first token of 256 bytes or more |
| TextHeader.LongTokenOutside | src/RequestProcessor.cpp:371-378 | 256 letters and a line end |
| TextHeader.StoreRoundTrip | src/RequestProcessor.cpp:386-442 | set, add, replace, append, prepend and cas: parsing a printed line gives back key, flags, expiry, length and ticket and ends just after it |
| TextHeader.FetchRoundTrip | src/RequestProcessor.cpp:445-473 | get and gets with any number of keys: all keys come back in order, and the end is just after the line |
| HeaderLimits.VerdictStays | src/RequestProcessor.cpp:366-473 | an accepted header, and an abort, stay what they are whatever bytes arrive behind the limit |
| HeaderLimits.AcceptedCloses | src/RequestProcessor.cpp:386-473 | an accepted header is closed by a character below the limit: the carriage return, the space before noreply, or what ends stats |
| HeaderLimits.PrefixFails | src/RequestProcessor.cpp:451-452 | a proper prefix of a printed line without its carriage return is never accepted and never aborts |
| HeaderLimits.UnknownFails | src/RequestProcessor.cpp:377-380 | a first token that no keyword accepts fails: none of its length, or all of them different at a tested position |
| HeaderLimits.StatsAsked | src/RequestProcessor.cpp:482-487 | stats ends two bytes behind the command, just after the line if that is all |
| HeaderLimits.AbortsIff | src/RequestProcessor.cpp:475-508 | exactly the commands without a parser abort |
| HeaderLimits.ServerAborts | src/Server.cpp:29-46 | for the server these are delete, incr, deccr, touch, watch, lru_crawler and slabs |
| HeaderLimits.NoReplyBack | src/RequestProcessor.cpp:432-438 | a storage line with noreply gives back all its fields and ends one byte early |
| TextHeader.ServerRecognises | src/Server.cpp:29-46 | the server's command list meets what the two round trips ask of it |

## Left out

- Weak memory orders: sequential consistency is assumed; a compare-and-swap may fail spuriously in the link words. No liveness of the link-word spin loops is claimed.
- Composed.Step: a hit may name any element, the one found included, since other threads may have done anything with it before it is moved; `LoneCalls.LoneCall` is for the choice that names it.
- LoneCalls.LoneCall: a single call at a time, without spurious failures; what several calls do to the order of the lists when they overlap is not claimed.
- LruMoves.UsedSurvives: for an element that is not second and not among the last two; for the others the code keeps no such promise.
- Composed.ListedIffIndexed: for runs whose evictions are safe and that no overrun has ended.
- SlotTheorems.RunsAreSerial: holds for runs whose evictions are safe; after an unsafe one the code can put an element into two slots.
- SlotTheorems.NoDeadlock: the same; a full ring cannot be excluded once an element is in two slots.
- SlotTheorems.EndsOnlyInOverruns: a failed eviction ends the run in the model, while insert ignores it (line 913); it is shown not to happen.
- LruTable.LFLRUHashTable.Acquire: a call ends at the store behind the lock buffer; what that store, the list head it overwrites and the late abort lead to is not modelled, nor in SlotLocks.
- LruTable.LFLRUHashTable.UnlinkElement: retry branches are asserted unreachable for a lone caller; LinkWords models them.
- The counters moves and inserts, and `remove`, `removeFromHashKey`, the casLocks variants, expiry bookkeeping, `packHash`, `processHash`, `linkTail`, copying and swapping of the table.
- ThreadedTree.TRBTree.TryInsert: nodes are indices into a growing sequence, node 0 standing for the root holder; a tagged pointer is an address, a trail bit and a lowest bit. The two mirrored halves of the fix-up loop are one method with a side.
- ThreadedTree.TRBTree.TryInsert: fewer than 2^23 elements, as the 48-entry stacks need; allocation failure is not modelled.
- `try_remove`, the copy constructors and the iterators of the tree.
- XxStream.StreamState.Digest: for inputs shorter than 2^64 bytes, the length the one-shot form can take.
- Endianness and alignment variants of xxHash: reads are little-endian.
- SpscQueue.StepInv: the lane counter is unbounded; only its parity is used, which wrap-around at 2^64 keeps. The buffer size may be any number from 2 on.
- Matcher.SolveMatchers: positions, indices and counts are unbounded; the source stores them in 8 and 16 bits. Sorting by variance is taking the best position, the only one used.
- KeywordMatcher.FastSubstringMatcher.SetKeywords: for different keywords of 1 to 255 bytes; equal ones would recurse for ever, an empty one has no position to test, and longer ones are stored outside the array.
- KeywordMatcher.FastSubstringMatcher.MatchSubstring: what lies behind the array is not modelled; such a read is an outcome of its own.
- Decimal.AtouiDefinedIff: for nine and ten bytes of which some count less than zero the definition itself, over all partial sums, is the condition.
- SsoStrings.MakeStep: the constructor that only reserves a size, and comparison and output of strings.
- TextHeader.RequestInfo.ParseHeader: starts from a fresh request; the byte at the limit, which the source reads but never depends on, is not read. The skip after noreply is modelled as it is; `HeaderLimits.NoReplyBack` says where it ends.
- The binary protocol, sessions, sockets, threads and start-up of the server.
