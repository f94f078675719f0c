# Zephyr client library: DES permutation tables and predicate retrieval from the input queue

This project models two parts of the Zephyr notification system's client side.

- **The constant tables of the table-driven DES** (libdes/f_tables.c).
  - `des_IP_table` and `des_FP_table` are applied one byte at a time to pre-mixed halves of a block. They compute the initial permutation and its inverse.
  - `des_SP_table` merges the S-boxes with the P permutation.
  - The tables are transcribed entry for entry (`DesTables`). The byte-at-a-time recipes from the file's comments are written as functions.
  - Each table is proved equal, entry by entry, to a closed-form "image" (`DesImages`), and the facts are proved about those images.
  - The recipes are checked against the bit-by-bit definitions of FIPS PUB 46-3 (`Fips46`). They are:
    - the initial permutation IP (section "Initial Permutation");
    - its inverse IP⁻¹;
    - the eight S-boxes S1–S8, with the row given by the outer bits and the column by the inner four;
    - the permutation P.
  - `DesTableFacts` states what the round code relies on:
    - bit masks;
    - OR-homomorphism and injectivity;
    - disjointness of the shifted lookups;
    - agreement with FIPS 46-3, and that FP undoes IP;
    - the layout of the eight S-box masks;
    - each combination of a box's mask bits occurs exactly four times, once per S-box row.
- **`ZCheckIfNotice`** (lib/ZCkIfNot.c). It retrieves the first complete queued notice that a caller's predicate accepts.
  - The input queue is a class holding a sequence of records (`InputQueue.Queue`). Each record has packet bytes, a sender address and a completeness flag.
  - `Z_ReadEnqueue`, `Z_GetFirstComplete`, `Z_GetNextComplete` and `Z_RemQueue` are methods on the queue.
  - `NoticeRetrieval.CheckIfNotice` is the C function's loop. It is proved equal to the specification function `Retrieve`:
    - the returned code, the notice, `*from` and the new queue all agree with `Retrieve`.
  - `RetrievalFacts` proves what `Retrieve` means:
    - each error path;
    - first match wins;
    - at most one record is removed, and only on success;
    - at-most-once delivery across two calls;
    - records that arrive later do not change the outcome of a call that already settled on an earlier record.

If the parse of the private copy fails (lib/ZCkIfNot.c:49-53), the code returns the error and does **not** remove the record. The model follows the code.

`ZParseNotice` is a deterministic function of the bytes it is given, and the copy holds the same bytes as the record. So in the model that failure branch can never be taken (`RetrievalFacts.CopyParseSucceeds`). The branch is still modelled: `RetrievalFacts.CopyParseFailureKeepsRecord` states what it does for any parse result.

Environment inputs are parameters:
- the records the transport delivers and the status `Z_ReadEnqueue` reports;
- `ZParseNotice`, as a function from bytes to a status code and a notice;
- the predicate together with its argument block, as a function on notices;
- whether `malloc` succeeds, as a boolean.

## Model

| member | source | states |
|---|---|---|
| DesTableFacts.IpTableIsImage | libdes/f_tables.c:52-117 | each of the 256 entries of des_IP_table is its index's bits 0..7 spread onto result bits 4,0,12,8,20,16,28,24 and no other bit |
| DesTableFacts.IpEntriesWithinMask | libdes/f_tables.c:52-117 | every des_IP_table entry has bits only within 0x11111111, at most one per nibble |
| DesTableFacts.IpTableOrHomomorphic | libdes/f_tables.c:52-117 | for all bytes a, b the entry for a \| b is the OR of the entries for a and for b |
| DesTableFacts.IpTableInjective | libdes/f_tables.c:52-117 | different bytes have different des_IP_table entries |
| DesTableFacts.IpHalfLookupsDisjoint | libdes/f_tables.c:45-49 | the lookups shifted left by 0, 1, 2 and 3 occupy pairwise disjoint bits for any two bytes |
| DesTableFacts.IpHalfInjective | libdes/f_tables.c:45-49 | the OR of the four shifted lookups of a word's bytes determines the word |
| DesTableFacts.FpTableIsImage | libdes/f_tables.c:132-197 | each des_FP_table entry is its index's bits 0..7 spread onto result bits 25,17,9,1,24,16,8,0 and no other bit |
| DesTableFacts.FpEntriesWithinMask | libdes/f_tables.c:132-197 | every des_FP_table entry has bits only within 0x03030303 |
| DesTableFacts.FpTableOrHomomorphic | libdes/f_tables.c:132-197 | for all bytes a, b the entry for a \| b is the OR of the entries for a and for b |
| DesTableFacts.FpTableInjective | libdes/f_tables.c:132-197 | different bytes have different des_FP_table entries |
| DesTableFacts.FpHalfLookupsDisjoint | libdes/f_tables.c:127-130 | the lookups shifted left by 6, 4, 2 and 0 occupy pairwise disjoint bits for any two bytes |
| DesTableFacts.FpHalfInjective | libdes/f_tables.c:127-130 | the OR of the four shifted lookups of a word's bytes determines the word |
| DesTableFacts.InitialPermutationIsImage | libdes/f_tables.c:37-49 | the premix of lines 42-43 followed by the byte-wise lookups equals the closed-form image of the whole block |
| DesTableFacts.FinalPermutationIsImage | libdes/f_tables.c:119-130 | the premix of lines 124-125 followed by the byte-wise lookups equals the closed-form image of the whole block |
| DesTableFacts.InitialPermutationIsStandard | libdes/f_tables.c:37-49 | the table-driven computation is the initial permutation IP of FIPS PUB 46-3, bit for bit |
| DesTableFacts.FinalPermutationIsStandard | libdes/f_tables.c:119-130 | the table-driven computation is the inverse initial permutation IP⁻¹ of FIPS PUB 46-3, bit for bit |
| DesTableFacts.FinalUndoesInitial | libdes/f_tables.c:119-130 | applying the FP recipe after the IP recipe gives back every block |
| DesTableFacts.InitialUndoesFinal | libdes/f_tables.c:37-49 | applying the IP recipe after the FP recipe gives back every block |
| DesTableFacts.SpTableIsImage | libdes/f_tables.c:205-341 | each of the 8×64 des_SP_table entries is P applied to its labelled S-box's output for that six-bit index |
| DesTableFacts.SpEntryIsStandard | libdes/f_tables.c:200-204 | entry i of box b is FIPS 46-3's P applied to S_label(b)(i), placed in that S-box's nibble; the labels are 7,1,3,5,4,6,8,2 as the box comments say |
| DesTableFacts.SpEntryWithinMask | libdes/f_tables.c:205-341 | every entry of a box has bits only within that box's mask |
| DesTableFacts.SpBoxMasksDisjoint | libdes/f_tables.c:205-341 | the masks of two different boxes share no bit |
| DesTableFacts.SpBoxMasksCover | libdes/f_tables.c:205-341 | the eight box masks together cover all 32 bits |
| DesTableFacts.SpBoxMaskHasFourBits | libdes/f_tables.c:205-341 | each box mask is the OR of four distinct single bits, the images of the S-box's four output bits |
| DesTableFacts.SpRowOnto | libdes/f_tables.c:205-341 | along any S-box row of a box, every combination of the box's mask bits occurs |
| DesTableFacts.SpRowInjective | libdes/f_tables.c:205-341 | along any S-box row of a box, no entry occurs twice |
| DesTableFacts.SpCombinationCount | libdes/f_tables.c:205-341 | a value within a box's mask is held by exactly a four-element set of indices; any other value is held by none |
| DesImages.InitialPermutationImageIsStandard | libdes/f_tables.c:37-49 | the closed-form IP image meets FIPS 46-3's IP on all 64 bits |
| DesImages.FinalPermutationImageIsStandard | libdes/f_tables.c:119-130 | the closed-form FP image meets FIPS 46-3's IP⁻¹ on all 64 bits |
| DesImages.BoxImageIsP | libdes/f_tables.c:200-204 | placing an S-box output in its nibble and applying P equals the box's bit spreading |
| DesImages.BoxGatherInverts | libdes/f_tables.c:200-204 | every combination of a box's mask bits is the spread of the S-box output that BoxGather reads from it |
| DesImages.BoxGatherReadsBack | libdes/f_tables.c:200-204 | the S-box output can be read back from its spread bits |
| InputQueue.FirstCompleteFrom | lib/ZCkIfNot.c:37-39 | the result is the least complete position at or after i; no record before it from i on is complete, and None means none is |
| InputQueue.RemoveAt | lib/ZCkIfNot.c:54 | removing record j keeps the records before j in place and moves the later ones down by one |
| InputQueue.RemoveAtTakesOne | lib/ZCkIfNot.c:54 | removal takes out exactly one copy of record j and nothing else |
| InputQueue.Queue.ReadEnqueue | lib/ZCkIfNot.c:34 | the delivered records are appended and the drain's status is returned |
| InputQueue.Queue.FindComplete | lib/ZCkIfNot.c:56 | the walk forward from a position returns the first complete record at or after it, or none (the walk behind both line 37 and line 56) |
| InputQueue.Queue.FirstComplete | lib/ZCkIfNot.c:37 | returns the oldest complete record, or none |
| InputQueue.Queue.NextComplete | lib/ZCkIfNot.c:56 | returns the next complete record after the given one, or none |
| InputQueue.Queue.RemQueue | lib/ZCkIfNot.c:54 | the queue loses exactly the given record and reports ZERR_NONE |
| NoticeRetrieval.Scan | lib/ZCkIfNot.c:37-56 | the walk stops at a complete record that fails to parse (with that code) or is accepted (with its notice), or runs out; every complete record before the stop parsed and was declined |
| NoticeRetrieval.Deliver | lib/ZCkIfNot.c:43-54 | after a match the queue is either unchanged or has exactly the matched record removed |
| NoticeRetrieval.CheckIfNotice | lib/ZCkIfNot.c:23-60 | the code, the notice, `*from` (written only when from is non-null) and the new queue are those of Retrieve on the old queue |
| RetrievalFacts.ScanStopsAtFirst | lib/ZCkIfNot.c:37-56 | the walk stops at the first complete record that fails to parse or is accepted |
| RetrievalFacts.ScanRunsOut | lib/ZCkIfNot.c:37-59 | when every complete record is declined the walk runs out |
| RetrievalFacts.RemovesOnlyOnSuccess | lib/ZCkIfNot.c:40-59 | the queue changes only on ZERR_NONE, losing one complete record whose notice was accepted and returned; a sender is reported only when asked for |
| RetrievalFacts.ReadFailureReturned | lib/ZCkIfNot.c:34-35 | a failed drain's code is returned, nothing is written and nothing is removed |
| RetrievalFacts.ParseFailureAborts | lib/ZCkIfNot.c:40-42 | a parse failure on a visited record returns that code; the queue is unchanged and nothing is written |
| RetrievalFacts.FirstMatchWins | lib/ZCkIfNot.c:43-54 | the earliest accepted complete record is the one acted on: ENOMEM keeps it queued, otherwise its notice and, if asked for, its sender are returned and exactly it is removed |
| RetrievalFacts.NoMatchIsNoNotice | lib/ZCkIfNot.c:56-59 | when no complete record is accepted the call returns ZERR_NONOTICE and the queue is unchanged |
| RetrievalFacts.CopyParseFailureKeepsRecord | lib/ZCkIfNot.c:49-53 | a failed parse of the copy returns its code with the sender already reported and the record kept |
| RetrievalFacts.CopyParseSucceeds | lib/ZCkIfNot.c:44-54 | whenever the caller's notice is written the call succeeds and removes a record |
| RetrievalFacts.AtMostOnce | lib/ZCkIfNot.c:37-59 | with one acceptable record, a first call returns and removes it, and a second call with no new arrivals returns ZERR_NONOTICE |
| RetrievalFacts.ScanAppend | lib/ZCkIfNot.c:37-56 | appending records does not change a walk that stopped within the old queue |
| RetrievalFacts.LaterArrivalsDoNotOverride | lib/ZCkIfNot.c:34-59 | records arriving behind the one a call settles on do not change its result; they only stay queued |

## Left out

- The DES round function, key schedule and chaining modes are not part of this model. Only the tables and the recipes in the table comments are modelled.
- The C entries are `unsigned long`. They are modelled as `bv32`: every value fits in 32 bits, and on a 64-bit `long` the upper half is zero.
- The 256-entry tables are held as 16 rows of 16 entries, and each box of `des_SP_table` as 4 rows of 16. Reading the rows in order gives the C initialiser order.
- SpCombinationCount: "exactly four" is stated as a four-element set of six-bit indices holding the value, not as a count over integers.
- Z_ReadEnqueue: the socket drain, fragment reassembly and duplicate suppression are left out. The drain appends the records it is given. An incomplete record that becomes complete in place is not modelled.
- ZParseNotice: its wire-format decoding is left out. What it leaves in the caller's notice when it fails is modelled as whatever notice the parse function returns.
- Z_RemQueue: freeing the entry and any failure of its own are left out. It always reports ZERR_NONE.
- CheckIfNotice: malloc is a success flag. Freeing the buffer on the failure path and handing the buffer's ownership to the returned notice are left out.
- CheckIfNotice: when the call returns before the second parse, the notice is None. The C code leaves `*notice` untouched in that case.
- The predicate's opaque `args` argument is folded into the predicate function.
- An address is an IPv4 host and port. The other `sockaddr_in` fields are left out.
- Concurrent access to the queue is out of scope; the code is single-threaded.
