# Verified models of the vector store, the test owner and its command lines

This project models three parts of the repository in Dafny and proves what they are for.

**The vec0 vector store** (`Bitmap`, `Schema`, `Metadata`, `Store`, `Allocator`, `Vec0Table`,
`TopK`, `Filters`, `Operands`, `SqlOrder`, `RowidIn`, `KnnQuery`, `KnnAnswer`, `Reads`, `Columns`, `QueryPlan`, `PlanReader`,
`PlanQuery`, `TopRows`, `WhereClause`, `WhereExamples`, `ColumnParser`, `ParserLetters`, `ParserTokens`, `Hamming`,
`Quantize`). Rows live in
fixed-size chunks: a validity bitmap, a rowid array, a vector blob per vector column and a metadata blob per metadata column, with a side table for long texts.
`MapModel` is the reference: a plain map from rowid to row. `MapHistory` says what that map holds after any run, and
which statements succeed, in terms of the statements alone. The main results are that any sequence of
inserts, updates and deletes does to the chunks what it does to the map, that point reads, full scans and
the KNN query answer from that map, that the chunk-wise KNN scan is a brute-force top-k, that a query
plan is decoded as it was encoded and the query it stands for filters by exactly the constraints that SQLite
was told not to check, when that filtering is what SQL's own comparisons say, when the answer is the top-k of the
whole WHERE clause, and how many inserts a number of chunks needs.

**The Linux ownership protocol** (`OwnerStatus`, `OwnerController`, `OwnerProtocol`, `OwnerInvariant`,
`OwnerPasses`, `OwnerSafety`, `OwnerEnd`, `OwnerFrames`, `OwnerLaunch`). Host, native controller, the init process of a PID namespace and the
other members interleave in every way, with signals, failing calls and deaths at any step. The controller's loop and the
status reader are classes; their steps are proved against the functions that the state machine uses, and
`OwnershipPasses` proves that a whole pass of the loop does what the machine's actions do. The main results are
that an answer of "empty" means that nothing is left, that the payload is forked only behind its gates and
never without a living or avenging owner, that the status stream is always understood, and that the end of a job is
told rightly: as an error exactly when nothing else explains it.

**Windows command-line quoting** (`Quoting`): the printer of the test runner against the argument
rules published in "Parsing C command-line arguments" of the Microsoft C language documentation.

Where the code does not do what one would expect, the model follows the code, a lemma names the case, and
another says for exactly which inputs the expected property holds: the 32-bit comparison of rowids, range
operators on texts of exactly 12 bytes, `>=` and `<` on long proper prefixes, right-hand sides that lose
their meaning when they are converted to the column's type, constraints that SQLite tests only after the
cut to k, such as `rowid = 5`, `in` lists on partition columns, NULL in partition keys, the bit order of
`vec_each`, 32-bit longs in the word-wise Hamming distance, token types the
column parser does not test, quotes in an executable and a trailing backslash of a quoted one, and a second ERROR line.
Code and comments disagree in three places: a comment says that a repeated `distance_metric` option is an
error, but it is accepted; a boolean metadata value is tested after truncation to 32 bits, so other
integers pass as 0 or 1; `bit[N]` is accepted for every N although no vector fits when N is no
multiple of 8.

What the model takes from outside. SQLite's tables are maps; a statement that fails is rolled back; the
order in which SQLite yields chunks and rows, and the choice of the largest rowid, are parameters or
conditions. SQLite runs a plan once for each combination of values of the lists that the table did not ask for, equal
values once, then drops the rows that fail the constraints not marked omit and orders what is left. Distances are values of a total order, represented by integers, given by a parameter. A right-hand side comes
with what sqlite3_value_int64, _double and _text make of it; how texts are read as numbers and numbers written as
texts is left open, and so is how a vector is decoded. The columns are declared without a type, so SQL's
own comparison applies no conversion to a literal or a parameter. `atoi` is
a parameter with the two properties the C standard gives it, and in `ParserLetters` a third, that letters behind a
number do not matter, which `Numbers.Atoi` has; `qsort` and `bsearch` are an insertion sort and a
binary search through the same comparison. The kernel is a set of rules in `OwnerProtocol`: init becomes waitable
only when no other member of its namespace is left, a dead owner delivers an armed signal, messages of a
sequenced socket keep their order, and a reset needs bytes the peer never read. A signal may reach the
controller at any step, and waitpid may fail at any reaping.

Run `dafny verify dfyconfig.toml` to check everything.

## Model

| member | source | states |
|---|---|---|
| `Bitmap.ShiftIsMask` | src/Adrai/TextEmbedding/Native/sqlite-vec.c:5750-5760 | the shifts written in the program select exactly bit j of a byte |
| `Bitmap.ShiftNonZero` | src/Adrai/TextEmbedding/Native/sqlite-vec.c:8371 | `bx >> j` is non-zero exactly when some bit at j or above is set, which is more than the bit that is being deleted |
| `Bitmap.BitmapGet` | src/Adrai/TextEmbedding/Native/sqlite-vec.c:5758-5760 | returns 1 for a set position and 0 for a clear one |
| `Bitmap.BitmapSet` | src/Adrai/TextEmbedding/Native/sqlite-vec.c:5750-5756 | one position takes the value, every other position keeps its own |
| `Bitmap.BitmapAndInplace` | src/Adrai/TextEmbedding/Native/sqlite-vec.c:5743-5747 | the base becomes the position-wise conjunction with the other bitmap |
| `Bitmap.BitmapCopy` | src/Adrai/TextEmbedding/Native/sqlite-vec.c:5738-5741 | the base becomes a copy |
| `Bitmap.BitmapClear` | src/Adrai/TextEmbedding/Native/sqlite-vec.c:5762-5765 | no position is set afterwards |
| `Bitmap.FirstClear` | src/Adrai/TextEmbedding/Native/sqlite-vec.c:7703-7713 | the least clear position of a validity bitmap, and -1 exactly when there is none |
| `TopK.TopKIsSortThenTake` | src/Adrai/TextEmbedding/Native/sqlite-vec.c:6570-6777 | a top-k list is the first min(k, n) entries of the sort by distance, then chunk order, then larger offset; and nothing else is one |
| `TopK.SortExists` | src/Adrai/TextEmbedding/Native/sqlite-vec.c:6570-6777 | a set of slots in distinct places has a sort |
| `TopK.MergeIsTopK` | src/Adrai/TextEmbedding/Native/sqlite-vec.c:5686-5719 | merging the top-k of what was seen with the top-k of disjoint new candidates is the top-k of all, so dropping the rest of both loses nothing |
| `TopK.MergeSortedLists` | src/Adrai/TextEmbedding/Native/sqlite-vec.c:5686-5719 | the output buffers hold the first n hits of the stable merge of the running list and the picked offsets; ties favour the running list; inputs stay |
| `TopK.MinIdx` | src/Adrai/TextEmbedding/Native/sqlite-vec.c:5782-5812 | `out` holds the min(k, candidates) nearest candidate offsets in order, larger offset first among equal distances |
| `TopK.Nearest` | src/Adrai/TextEmbedding/Native/sqlite-vec.c:5800-5805 | of the free candidates from the start on, the nearest, and the last of those that are equally near |
| `TopK.NextFree` | src/Adrai/TextEmbedding/Native/sqlite-vec.c:5790-5798 | the first candidate not taken yet, or the end when there is none |
| `TopK.SelectionIsTopK` | src/Adrai/TextEmbedding/Native/sqlite-vec.c:6753-6761 | selecting min(k, chunk_size) offsets of one chunk gives the top-k of that chunk's candidates |
| `TopK.KnnBuffers.constructor` | src/Adrai/TextEmbedding/Native/sqlite-vec.c:6464-6556 | fresh buffers of the right sizes with an empty running list |
| `TopK.KnnBuffers.FoldChunk` | src/Adrai/TextEmbedding/Native/sqlite-vec.c:6753-6767 | after one chunk the running list is the top-k of everything seen so far together with the candidates of this chunk |
| `TopK.KnnBuffers.Select` | src/Adrai/TextEmbedding/Native/sqlite-vec.c:6753-6755 | the offsets selected are the top-k of the chunk |
| `TopK.KnnBuffers.MergeBack` | src/Adrai/TextEmbedding/Native/sqlite-vec.c:6757-6767 | the running list becomes the merge of itself with the selected slots |
| `TopK.KnnBuffers.Result` | src/Adrai/TextEmbedding/Native/sqlite-vec.c:6775-6778 | the hits of the running list, in order |
| `VectorSlots.OffsetsAgree` | src/Adrai/TextEmbedding/Native/sqlite-vec.c:7766-7793 | the offset a vector is written at is the offset readers use, for every slot, exactly when a bit column's length is a multiple of 8 |
| `VectorSlots.ReadAfterWrite` | src/Adrai/TextEmbedding/Native/sqlite-vec.c:3912-3921 | a written vector is read back from its slot, and all other slots of the chunk read as before |
| `Metadata.InsertValue` | src/Adrai/TextEmbedding/Native/sqlite-vec.c:7954-8100 | a write into a vacant slot succeeds exactly for values of the column's type; the row then reads the stored value, all other rows read as before, and the prefix view and side table stay consistent |
| `Metadata.UpdateValue` | src/Adrai/TextEmbedding/Native/sqlite-vec.c:8027-8089 | the same for an update, through every change between short and long text |
| `Metadata.DeleteValue` | src/Adrai/TextEmbedding/Native/sqlite-vec.c:8463-8536 | a delete leaves a zero cell and no side row, and every other row reads as before |
| `Metadata.NewChunk` | src/Adrai/TextEmbedding/Native/sqlite-vec.c:4508-4537 | a new chunk has zero cells and no side rows, and no row notices it |
| `Metadata.WrittenRow` | src/Adrai/TextEmbedding/Native/sqlite-vec.c:4067-4130 | a read after a write returns the value, from the cell alone when it has at most 12 bytes and from the side table otherwise |
| `Metadata.FramedRow` | src/Adrai/TextEmbedding/Native/sqlite-vec.c:4067-4130 | a row whose cell and side row are untouched reads the same |
| `Metadata.Preserved` | src/Adrai/TextEmbedding/Native/sqlite-vec.c:8027-8089 | writing one cell and one side row keeps the invariant for all rows and all vacant slots |
| `Store.NewChunkKeepsInv` | src/Adrai/TextEmbedding/Native/sqlite-vec.c:4396-4537 | the table invariant survives the creation of a chunk |
| `Store.NewChunkKeepsRows` | src/Adrai/TextEmbedding/Native/sqlite-vec.c:4396-4537 | a new chunk changes no row of the map |
| `Store.PlacingAddsRow` | src/Adrai/TextEmbedding/Native/sqlite-vec.c:8111-8342 | writing a row into a free slot keeps the invariant and adds exactly one entry to the map; bytes left in the slot are never seen |
| `Store.RemovingDropsRow` | src/Adrai/TextEmbedding/Native/sqlite-vec.c:8540-8599 | giving up a slot keeps the invariant and removes exactly one entry, although the old rowid and vector bytes stay |
| `Store.RewritingReplacesRow` | src/Adrai/TextEmbedding/Native/sqlite-vec.c:8701-8807 | overwriting some columns of a row keeps the invariant and replaces exactly that entry; columns without a new value keep theirs |
| `MapModel.Apply` | src/Adrai/TextEmbedding/Native/sqlite-vec.c:8809-8826 | a failed statement leaves the map as it was, and every row keeps the shape of the schema |
| `MapModel.UpdateIgnoresNewRowid` | src/Adrai/TextEmbedding/Native/sqlite-vec.c:8701-8735 | an UPDATE does the same whatever new rowid it names, and the set of rowids stays |
| `MapHistory.InsertReturns` | src/Adrai/TextEmbedding/Native/sqlite-vec.c:7571-7639 | in every run from the empty table an INSERT returns the rowid it is given; without one it returns the least positive number above every rowid that an INSERT of the run ever returned, deleted rows included: 1, or one more than the greatest |
| `MapHistory.InsertSucceedsIff` | src/Adrai/TextEmbedding/Native/sqlite-vec.c:8111-8342 | an INSERT succeeds exactly when its rowid is not alive, or the greatest rowid ever used is below the maximum, every value has its column's type and size, and distance and k are NULL |
| `MapHistory.DeleteSucceedsIff` | src/Adrai/TextEmbedding/Native/sqlite-vec.c:8540-8599 | a DELETE succeeds exactly when its row was inserted and not deleted since |
| `MapHistory.UpdateSucceedsIff` | src/Adrai/TextEmbedding/Native/sqlite-vec.c:8701-8807 | an UPDATE succeeds exactly when its row is alive, no partition value changes and every new value fits |
| `MapHistory.TableIsHistory` | src/Adrai/TextEmbedding/Native/sqlite-vec.c:8809-8826 | after every run the rows are those inserted and not deleted since, each with the partition it was inserted with and the vectors and metadata it was last given, booleans as 0 or 1 |
| `Allocator.InsertKeepsAlloc` | src/Adrai/TextEmbedding/Native/sqlite-vec.c:7641-7774 | filling a slot of the newest chunk keeps the account of inserts against chunks |
| `Allocator.NewChunkKeepsAlloc` | src/Adrai/TextEmbedding/Native/sqlite-vec.c:7715-7760 | so does making a chunk, provided the newest one was full |
| `Allocator.DeleteKeepsAlloc` | src/Adrai/TextEmbedding/Native/sqlite-vec.c:8344-8433 | so does a delete |
| `Allocator.AllocatorBound` | src/Adrai/TextEmbedding/Native/sqlite-vec.c:7641-7774 | a partition with n chunks has had at least (n - 1) * chunk_size + 1 successful inserts, whatever was deleted |
| `Allocator.ReusableIffNoNull` | src/Adrai/TextEmbedding/Native/sqlite-vec.c:4132-4201 | a chunk is found again under the key it was made for exactly when no part of the key is NULL |
| `Vec0.Vec0Table.constructor` | src/Adrai/TextEmbedding/Native/sqlite-vec.c:4963-5160 | a new table is valid and stands for the empty map |
| `Vec0.Vec0Table.InsertRowidStep` | src/Adrai/TextEmbedding/Native/sqlite-vec.c:7571-7639 | claims the given rowid, or one above the largest ever used; fails exactly when the map would. MapHistory.InsertReturns says which rowid that is in a run |
| `Vec0.Vec0Table.LatestChunk` | src/Adrai/TextEmbedding/Native/sqlite-vec.c:4132-4201 | the newest chunk of the partition, if it has one |
| `Vec0.Vec0Table.InsertNextAvailableStep` | src/Adrai/TextEmbedding/Native/sqlite-vec.c:7641-7774 | the slot is the least clear offset of the newest chunk of the partition; a chunk is created only when that chunk is full or none exists |
| `Vec0.Vec0Table.InsertWriteFinalStep` | src/Adrai/TextEmbedding/Native/sqlite-vec.c:7832-7950 | validity bit, vectors, rowid entry and position are written for one slot, all other slots stay |
| `Vec0.Vec0Table.WriteMetadata` | src/Adrai/TextEmbedding/Native/sqlite-vec.c:8314-8324 | succeeds exactly when every value has its column's type, and then has written every metadata cell of the slot |
| `Vec0.Vec0Table.CheckArguments` | src/Adrai/TextEmbedding/Native/sqlite-vec.c:8141-8229 | accepts exactly the statements whose partition values, vectors and hidden columns are acceptable |
| `Vec0.Vec0Table.FillSlot` | src/Adrai/TextEmbedding/Native/sqlite-vec.c:8237-8324 | a row whose values are acceptable is placed in a free slot of its partition |
| `Vec0.Vec0Table.TryInsert` | src/Adrai/TextEmbedding/Native/sqlite-vec.c:8111-8342 | succeeds exactly when the map accepts the row, and then has placed it in the slot the allocator provides |
| `Vec0.Vec0Table.Insert` | src/Adrai/TextEmbedding/Native/sqlite-vec.c:8111-8342 | an INSERT does to the table what it does to the map, rolls back on error, and keeps the invariant |
| `Vec0.Vec0Table.ClearValidity` | src/Adrai/TextEmbedding/Native/sqlite-vec.c:8344-8405 | on a live slot the check never fails, and only that validity bit is cleared |
| `Vec0.Vec0Table.TryDelete` | src/Adrai/TextEmbedding/Native/sqlite-vec.c:8540-8599 | deleting a live row never fails |
| `Vec0.Vec0Table.Delete` | src/Adrai/TextEmbedding/Native/sqlite-vec.c:8540-8599 | a DELETE does to the table what it does to the map |
| `Vec0.Vec0Table.UpdateMetadata` | src/Adrai/TextEmbedding/Native/sqlite-vec.c:8762-8776 | succeeds exactly when every new value has its column's type |
| `Vec0.Vec0Table.UpdateVectors` | src/Adrai/TextEmbedding/Native/sqlite-vec.c:8778-8804 | succeeds exactly when every new vector fits its column |
| `Vec0.Vec0Table.TryUpdate` | src/Adrai/TextEmbedding/Native/sqlite-vec.c:8701-8807 | succeeds exactly when the map accepts the change, and then has rewritten that row and no other |
| `Vec0.Vec0Table.Update` | src/Adrai/TextEmbedding/Native/sqlite-vec.c:8701-8807 | an UPDATE does to the table what it does to the map |
| `Vec0.Vec0Table.Execute` | src/Adrai/TextEmbedding/Native/sqlite-vec.c:8809-8826 | each statement refines one step of the plain map |
| `Vec0.Vec0Table.ExecuteAll` | src/Adrai/TextEmbedding/Native/sqlite-vec.c:8809-8826 | after any sequence of statements the tables stand for the map, and every result is the one, that the same sequence gives on a plain map |
| `Vec0.InsertAllocates` | src/Adrai/TextEmbedding/Native/sqlite-vec.c:7641-7774 | an insert keeps the allocator account, whichever slot it got |
| `Vec0.SlotFound` | src/Adrai/TextEmbedding/Native/sqlite-vec.c:8111-8342 | claiming the rowid first and looking for a slot afterwards finds the slot of the old state |
| `Reads.PointRead` | src/Adrai/TextEmbedding/Native/sqlite-vec.c:7132-7180 | the row of the map, and nothing exactly when there is none |
| `Reads.FullScan` | src/Adrai/TextEmbedding/Native/sqlite-vec.c:7086-7130 | the rows of the map in scan order |
| `Reads.ScanOrderOnce` | src/Adrai/TextEmbedding/Native/sqlite-vec.c:7086-7130 | a scan order names every row of the map exactly once, by chunk and inside a chunk by offset |
| `Reads.ScanOrderExists` | src/Adrai/TextEmbedding/Native/sqlite-vec.c:7086-7130 | rows in distinct places have a scan order |
| `Filters.StrNCmpIsLex` | src/Adrai/TextEmbedding/Native/sqlite-vec.c:6002-6034 | on NUL-free texts strncmp of n bytes has the sign of the SQL order of the two n-byte prefixes |
| `Filters.StrNCmpLocal` | src/Adrai/TextEmbedding/Native/sqlite-vec.c:6002-6020 | the cached prefix can stand for the full text when no more than its bytes are compared |
| `Filters.CellEqualsIsEquality` | src/Adrai/TextEmbedding/Native/sqlite-vec.c:6002-6075 | the equality test on a cell and its side row is equality of the full texts |
| `Filters.CellInIsMembership` | src/Adrai/TextEmbedding/Native/sqlite-vec.c:6200-6262 | the IN test is membership of the full text |
| `Filters.ShortRange` | src/Adrai/TextEmbedding/Native/sqlite-vec.c:6076-6200 | texts shorter than 12 bytes are ordered correctly against every target by their cell alone |
| `Filters.LongRange` | src/Adrai/TextEmbedding/Native/sqlite-vec.c:6076-6200 | longer texts are ordered correctly by > and <=, and by >= and < unless they are a proper prefix of the target |
| `Filters.CellReadable` | src/Adrai/TextEmbedding/Native/sqlite-vec.c:5964-6269 | under the column invariant a constraint asks for a missing side row exactly when a range operator meets a text of exactly 12 bytes |
| `Filters.CellMatchesValue` | src/Adrai/TextEmbedding/Native/sqlite-vec.c:5964-6445 | on NUL-free texts a constraint is decided as the comparison with the converted right-hand side says, exactly when it is readable and not a long text that is a proper prefix of the target of >= or < |
| `Filters.MisjudgedPasses` | src/Adrai/TextEmbedding/Native/sqlite-vec.c:6133 | a long text that is a proper prefix of t passes `>= t` although it comes before t |
| `Filters.MisjudgedExample` | src/Adrai/TextEmbedding/Native/sqlite-vec.c:6133 | such a pair exists |
| `Filters.UnreadableExample` | src/Adrai/TextEmbedding/Native/sqlite-vec.c:6082 | a text of 12 bytes makes `> t` fail for every t |
| `Filters.VacantCellReadable` | src/Adrai/TextEmbedding/Native/sqlite-vec.c:5964-6269 | a zero cell never asks for a side row, so free slots cannot fail a query |
| `Operands.ConvertedIsSql` | src/Adrai/TextEmbedding/Native/sqlite-vec.c:6331-6350 | comparing a stored value with the converted right-hand side is what SQL does with the unconverted one, exactly when the right-hand side is not distorted for that value: NULL, a value of another class, or a number whose image equals the stored value while the operator can tell the two apart |
| `Operands.FaithfulIffAlwaysSql` | src/Adrai/TextEmbedding/Native/sqlite-vec.c:6331-6350 | a constraint agrees with SQL on every value its column can hold exactly under a condition on the operator and the right-hand side alone |
| `Operands.CellMatchesSql` | src/Adrai/TextEmbedding/Native/sqlite-vec.c:5964-6445 | on NUL-free texts one cell is decided as SQL decides the constraint on the full value, exactly when it is readable and a misjudged prefix and a distorted right-hand side are both absent or both present |
| `Operands.DistortedExamples` | src/Adrai/TextEmbedding/Native/sqlite-vec.c:6335-6346 | `flag = 2` finds flag 1, `n >= 3.5` finds 3, and `n = NULL` and `n = 'x'` find 0; SQL finds none of them |
| `SqlOrder.ConstraintMeans` | src/Adrai/TextEmbedding/Native/sqlite-vec.c:5557-5634 | what a constraint asks of a row: the value of the column it names is below, above or the same as the right-hand side, numbers by value and before texts, texts and blobs by their first different byte, never with a NULL; a list asks for one of its values |
| `SqlOrder.ConvertedMeans` | src/Adrai/TextEmbedding/Native/sqlite-vec.c:6331-6350 | the table makes the same comparison with the right-hand side as an integer, a real or a text, and takes a boolean to be true unless the low 32 bits of the integer are zero |
| `SqlOrder.ConvertedListMeans` | src/Adrai/TextEmbedding/Native/sqlite-vec.c:6200-6262 | a list on an integer or text column is membership of the stored value among the converted entries |
| `RowidIn.CmpOrdersRange` | src/Adrai/TextEmbedding/Native/sqlite-vec.c:1048 | the comparison orders a range of rowids correctly exactly when the range is narrower than 2^31 |
| `RowidIn.ListedIsMembership` | src/Adrai/TextEmbedding/Native/sqlite-vec.c:6642-6656 | when all differences fit in 32 bits, sorting and binary search is set membership |
| `RowidIn.ListedIsCongruence` | src/Adrai/TextEmbedding/Native/sqlite-vec.c:6642-6656 | for a list within 2^31 of a number that agrees with the probed rowid in the low 32 bits, exactly the rowids that agree with an entry in these bits are found |
| `RowidIn.ListedSingleton` | src/Adrai/TextEmbedding/Native/sqlite-vec.c:6651-6653 | with one listed rowid, exactly the rowids that agree with it in the low 32 bits are found |
| `RowidIn.ListedExample` | src/Adrai/TextEmbedding/Native/sqlite-vec.c:1048 | a rowid that is not listed is found when differences exceed 32 bits |
| `KnnQuery.FilterBitmap` | src/Adrai/TextEmbedding/Native/sqlite-vec.c:6283-6445 | fails exactly when some slot of the chunk is unreadable; otherwise position o says whether slot o passes |
| `KnnQuery.RowidBitmap` | src/Adrai/TextEmbedding/Native/sqlite-vec.c:6642-6656 | position o is set exactly when slot o is valid and its rowid is found in the list |
| `KnnQuery.Candidates` | src/Adrai/TextEmbedding/Native/sqlite-vec.c:6642-6687 | the candidate bitmap is exactly validity and rowid list and every metadata constraint |
| `KnnQuery.Distances` | src/Adrai/TextEmbedding/Native/sqlite-vec.c:6689-6750 | every candidate's distance is the metric of the vector stored for it |
| `KnnQuery.ScanChunk` | src/Adrai/TextEmbedding/Native/sqlite-vec.c:6570-6772 | one turn extends the candidates seen by those of this chunk and keeps the top-k of them |
| `KnnQuery.ScanChunks` | src/Adrai/TextEmbedding/Native/sqlite-vec.c:6449-6800 | the hits are the top-k of all candidates of all visited chunks; the scan fails exactly when a visited chunk is unreadable |
| `KnnAnswer.ReadableIffNoRowFails` | src/Adrai/TextEmbedding/Native/sqlite-vec.c:6283-6445 | a visited chunk is unreadable exactly when a row of the map in the selected partitions has an unreadable value |
| `KnnAnswer.CandidateIsMatch` | src/Adrai/TextEmbedding/Native/sqlite-vec.c:6642-6687 | every candidate slot is the slot of a row of the map that passes all constraints |
| `KnnAnswer.MatchIsCandidate` | src/Adrai/TextEmbedding/Native/sqlite-vec.c:6642-6687 | every row of the map that passes all constraints is a candidate, once |
| `KnnAnswer.ScanIsBruteForce` | src/Adrai/TextEmbedding/Native/sqlite-vec.c:6449-6800 | the hits of the scan are a brute-force top-k over the map: matching rows only, no row twice, ordered, and every row left out at least as far |
| `KnnAnswer.ScanIsSortedPrefix` | src/Adrai/TextEmbedding/Native/sqlite-vec.c:6570-6777 | the running list after the scan is the front of the sorted list of all candidates |
| `KnnAnswer.Knn` | src/Adrai/TextEmbedding/Native/sqlite-vec.c:6846-7084 | the query fails exactly for a query vector that is not decoded or has the wrong type or length, for a k outside 0..4096, or for an unreadable row, and otherwise returns the brute-force top-k over the rows of the map that pass every constraint |
| `KnnAnswer.MatchesAsSql` | src/Adrai/TextEmbedding/Native/sqlite-vec.c:5964-6445 | away from the exceptional families a row passes the code exactly when SQL, comparing with the unconverted right-hand sides, lets it pass |
| `KnnAnswer.MatchingAsSql` | src/Adrai/TextEmbedding/Native/sqlite-vec.c:5964-6445 | over a table without exceptional rows no row makes the query fail, and the rows considered are those SQL selects |
| `KnnAnswer.FilterAsSql` | src/Adrai/TextEmbedding/Native/sqlite-vec.c:6283-6445 | one metadata constraint is decided as SQL does exactly when the text is readable and misjudged prefix and distorted right-hand side do not occur alone |
| `KnnAnswer.RowidAsSql` | src/Adrai/TextEmbedding/Native/sqlite-vec.c:6642-6656 | the rowid list is decided as SQL does when all differences fit in 32 bits and no entry was cut to the rowid |
| `Columns.IndexesAreABijection` | src/Adrai/TextEmbedding/Native/sqlite-vec.c:4663-4850 | the columns of each kind are numbered 0, 1, ... in declaration order, without gaps or repetitions |
| `Columns.IndexInRange` | src/Adrai/TextEmbedding/Native/sqlite-vec.c:3650-3719 | an index obtained for a kind is below the number of columns of that kind |
| `Columns.HelpersInvert` | src/Adrai/TextEmbedding/Native/sqlite-vec.c:3619-3719 | kind and index determine the column number, and the hidden distance and k columns are no user columns |
| `Columns.Vtab.AddColumn` | src/Adrai/TextEmbedding/Native/sqlite-vec.c:4663-4790 | a column is recorded at the next index of its kind; refused exactly when the kind is used up |
| `Columns.Vtab.InitArgument` | src/Adrai/TextEmbedding/Native/sqlite-vec.c:4663-4850 | one constructor argument is accepted exactly when it is fine by itself and there is room for it; Init says what that is |
| `Columns.Vtab.Init` | src/Adrai/TextEmbedding/Native/sqlite-vec.c:4636-4961 | accepts exactly the argument lists with 1 to 16 vector columns of at most 8192 dimensions, at most 4 partition, 16 auxiliary and 16 metadata columns, one primary key, and chunk sizes that are multiples of 8 up to 4096. Then the column arguments are recorded in order, each as the kind it was declared as, the counters count them, and the chunk size is the last one given, or 1024 |
| `QueryPlan.DecodeEncode` | src/Adrai/TextEmbedding/Native/sqlite-vec.c:5541-5544 | every block written for a role is read back as that role |
| `QueryPlan.IndexInfo.Bind` | src/Adrai/TextEmbedding/Native/sqlite-vec.c:5636-5641 | the constraint becomes the next argument, marked omit, with a block that decodes to its role |
| `QueryPlan.IndexInfo.ScanConstraints` | src/Adrai/TextEmbedding/Native/sqlite-vec.c:5362-5416 | finds the last usable constraint of each kind, or reports a second MATCH or rowid list |
| `QueryPlan.AcceptedIff` | src/Adrai/TextEmbedding/Native/sqlite-vec.c:5362-5634 | the conditions of the loops are these: one MATCH and one rowid list at most; with a MATCH either LIMIT or k, no order or that of ascending distance, no constraint on an auxiliary column, and on metadata columns only comparisons, without order on booleans and lists on integers and texts only |
| `QueryPlan.OnlyByDistance` | src/Adrai/TextEmbedding/Native/sqlite-vec.c:5429-5455 | `ORDER BY distance` changes nothing; a descending term, another column, or two terms are refused |
| `QueryPlan.IndexInfo.BindPartitions` | src/Adrai/TextEmbedding/Native/sqlite-vec.c:5495-5547 | takes over exactly the partition comparisons |
| `QueryPlan.IndexInfo.AdmitMetadata` | src/Adrai/TextEmbedding/Native/sqlite-vec.c:5549-5634 | admits exactly the operators the column kind supports |
| `QueryPlan.IndexInfo.BindMetadata` | src/Adrai/TextEmbedding/Native/sqlite-vec.c:5549-5643 | takes over every metadata constraint, and fails exactly when one is not admissible |
| `QueryPlan.IndexInfo.PlanKnn` | src/Adrai/TextEmbedding/Native/sqlite-vec.c:5421-5649 | a KNN plan takes over exactly the query vector, k, the rowid list, the partition comparisons and the metadata constraints |
| `QueryPlan.IndexInfo.BestIndex` | src/Adrai/TextEmbedding/Native/sqlite-vec.c:5336-5681 | an accepted plan has 1 + 4 * argc characters, argument numbers 1..argc, and block i decodes to the role of the constraint bound to argument i; a query is accepted exactly under the rules of AcceptedIff, and planned as KNN with a MATCH, as a single row with a usable `rowid = ?` and no MATCH, and otherwise as a full scan |
| `PlanReader.FindArguments` | src/Adrai/TextEmbedding/Native/sqlite-vec.c:6825-6840 | the last block of each fixed kind, or -1 |
| `PlanReader.ChunksIter` | src/Adrai/TextEmbedding/Native/sqlite-vec.c:5863-5945 | one condition for each partition block, in order, each bound to the argument of its block |
| `PlanReader.OwnPlanFound` | src/Adrai/TextEmbedding/Native/sqlite-vec.c:7187-7217 | the reader never rejects a plan of its own planner, and finds query vector, k and rowid list where they were put |
| `PlanReader.ConditionsAreConstraints` | src/Adrai/TextEmbedding/Native/sqlite-vec.c:5863-5945 | the n-th placeholder of the chunk query compares the column of the constraint whose value it receives, and every partition comparison has one |
| `PlanReader.OmittedAreBound` | src/Adrai/TextEmbedding/Native/sqlite-vec.c:5469-5637 | the constraints SQLite is told not to check again are exactly those with a block in the plan, each with one argument number; that they are applied is PlanQuery.FiltersAreOmitted |
| `PlanQuery.ReadFilters` | src/Adrai/TextEmbedding/Native/sqlite-vec.c:6657-6682 | the metadata blocks give one filter each, in order, with the argument of the block |
| `PlanQuery.ReadPartitions` | src/Adrai/TextEmbedding/Native/sqlite-vec.c:5863-5945 | the chunk query of a readable plan is never refused, and compares each partition column with the argument of its block |
| `PlanQuery.ReadQuery` | src/Adrai/TextEmbedding/Native/sqlite-vec.c:6825-6942 | query vector, k, rowid list and filters are read from the arguments of their blocks |
| `PlanQuery.PlanIsReadable` | src/Adrai/TextEmbedding/Native/sqlite-vec.c:7187-7217 | every accepted plan can be read with the arguments SQLite passes, and its query vector, k and rowid list are those of the constraints chosen for them |
| `PlanQuery.PlanGivesQuery` | src/Adrai/TextEmbedding/Native/sqlite-vec.c:5549-5643 | the query of an accepted plan is in order: its columns exist and every filter is one its column supports |
| `PlanQuery.EachConstraintOnce` | src/Adrai/TextEmbedding/Native/sqlite-vec.c:5549-5643 | every metadata constraint appears in that query exactly once, with its own operator and its own argument, and nothing else does |
| `PlanQuery.FiltersAreOmitted` | src/Adrai/TextEmbedding/Native/sqlite-vec.c:5469-5637 | a row passes the filters that the reader makes of the plan exactly when it satisfies every constraint that SQLite was told not to check again |
| `PlanQuery.FilterKnn` | src/Adrai/TextEmbedding/Native/sqlite-vec.c:7187-7217 | running a readable plan gives the answer of the query it stands for |
| `PlanQuery.RunQuery` | src/Adrai/TextEmbedding/Native/sqlite-vec.c:5336-5681 | planning, passing the arguments and running the plan compose: a query is planned exactly under the rules of QueryPlan.AcceptedIff, and its answer is the nearest rows that satisfy the constraints omitted, for the k and the vector given, at most 4096 and in the ascending order of distance that ORDER BY may ask for |
| `PlanQuery.OmittedExactly` | src/Adrai/TextEmbedding/Native/sqlite-vec.c:5469-5637 | a constraint of a planned KNN query is marked omit exactly when it is the MATCH, the one that gives k, `rowid in`, a comparison of a partition column or a metadata constraint; `rowid = ?` is set aside and never used here |
| `PlanQuery.PlanAsSql` | src/Adrai/TextEmbedding/Native/sqlite-vec.c:6449-6800 | over a table without exceptional rows the hits are a top-k of the rows that satisfy the constraints marked omit, which need not be the whole WHERE clause |
| `TopRows.KeptIsTopK` | src/Adrai/TextEmbedding/Native/sqlite-vec.c:6449-6800 | when rows are dropped from a top-k afterwards, the rest is the top-k of the rows wanted exactly when nothing was dropped or no row wanted is missing |
| `TopRows.MergedIsTopK` | src/Adrai/TextEmbedding/Native/sqlite-vec.c:5508-5547 | several top-k answers over disjoint sets, put together, are a top-k exactly when they have at most k hits |
| `TopRows.MergedFits` | src/Adrai/TextEmbedding/Native/sqlite-vec.c:5508-5547 | that is when the rows wanted are at most k in all, or all in one of the sets, or k is 0 |
| `WhereClause.ScanListsAsWanted` | src/Adrai/TextEmbedding/Native/sqlite-vec.c:5482-5492 | each scan hands over whole lists exactly where the table asked for them, as PlanQuery.RunQuery requires |
| `WhereClause.AnswerIsRun` | src/Adrai/TextEmbedding/Native/sqlite-vec.c:5336-5681 | an answer of PlanQuery.RunQuery to a scan, over a table without exceptional rows, is a run as the following lemmas speak of it |
| `WhereClause.WhereSplits` | src/Adrai/TextEmbedding/Native/sqlite-vec.c:5469-5637 | a row satisfies the WHERE clause exactly when it satisfies the constraints marked omit and those SQLite tests on the rows that come back |
| `WhereClause.CoveredAsSql` | src/Adrai/TextEmbedding/Native/sqlite-vec.c:5508-5637 | when every constraint of the WHERE clause is `rowid in`, a comparison of a partition column or a metadata constraint, and no partition column has an `in` list, the user sees the top-k of the rows that satisfy the WHERE clause |
| `WhereClause.ScanAsSql` | src/Adrai/TextEmbedding/Native/sqlite-vec.c:5469-5649 | otherwise the user sees those of the k nearest rows satisfying the constraints taken over that satisfy the rest; this is the top-k of the rows satisfying both exactly when none of the k is dropped or every such row is among them |
| `WhereClause.ScanExactIff` | src/Adrai/TextEmbedding/Native/sqlite-vec.c:5469-5649 | the same in terms of the rows, without ties: all of the k nearest rows satisfy the rest, or every row that does has fewer than k rows in front of it |
| `WhereClause.ReturnedIffNearest` | src/Adrai/TextEmbedding/Native/sqlite-vec.c:6449-6800 | without ties a row is among the hits exactly when fewer than k rows satisfying the constraints taken over are nearer; with ties that is still necessary |
| `WhereClause.RowidEquals` | src/Adrai/TextEmbedding/Native/sqlite-vec.c:5399-5407 | with `rowid = x` in a KNN query the row comes back when fewer than k rows are no farther, and nothing comes back when k rows are nearer |
| `WhereClause.ScansDivideWhere` | src/Adrai/TextEmbedding/Native/sqlite-vec.c:5508-5547 | with `in` lists on partition columns every row satisfying the WHERE clause is found by exactly one of the scans, and no other row by any |
| `WhereClause.ScansAsSql` | src/Adrai/TextEmbedding/Native/sqlite-vec.c:5508-5547 | each of those scans has its own k: what the user sees is the top-k of the rows satisfying the WHERE clause exactly when they are at most k, or all of one scan, or k is 0 |
| `WhereExamples.RowidExample` | src/Adrai/TextEmbedding/Native/sqlite-vec.c:5399-5407 | an accepted query with k = 1 and `rowid = 5` returns nothing although row 5 satisfies its WHERE clause |
| `WhereExamples.ListExample` | src/Adrai/TextEmbedding/Native/sqlite-vec.c:5508-5547 | an accepted query with k = 1 and a list of two partitions returns two rows |
| `Hamming.TableCounts` | src/Adrai/TextEmbedding/Native/sqlite-vec.c:501-512 | each of the 256 table entries is the number of set bits of its index |
| `Hamming.DistanceU8` | src/Adrai/TextEmbedding/Native/sqlite-vec.c:514-520 | the byte path sums the differing bits of all bytes |
| `Hamming.DistanceU64` | src/Adrai/TextEmbedding/Native/sqlite-vec.c:540-546 | the word path counts, of each word, the bytes that fit into a long |
| `Hamming.DistanceHamming` | src/Adrai/TextEmbedding/Native/sqlite-vec.c:556-563 | with 64-bit longs both sides of the dispatch give the same distance |
| `Hamming.NarrowLong` | src/Adrai/TextEmbedding/Native/sqlite-vec.c:540-546 | with 32-bit longs the word path is right exactly when the vectors agree in the upper half of every word |
| `Hamming.DistanceCountsPositions` | src/Adrai/TextEmbedding/Native/sqlite-vec.c:514-546 | the distance is the number of bit positions in which the vectors differ |
| `Hamming.ZeroIffEqual` | src/Adrai/TextEmbedding/Native/sqlite-vec.c:556-563 | the distance is zero exactly on equal vectors |
| `Hamming.Symmetric` | src/Adrai/TextEmbedding/Native/sqlite-vec.c:556-563 | the distance is symmetric |
| `Hamming.Triangle` | src/Adrai/TextEmbedding/Native/sqlite-vec.c:556-563 | the triangle inequality holds |
| `Quantize.QuantizeBinary` | src/Adrai/TextEmbedding/Native/sqlite-vec.c:1362-1413 | refuses exactly empty vectors, lengths that are no multiple of 8 and bit vectors; otherwise bit i is set exactly when value i is above 0.0, or above 0 for int8 |
| `Quantize.Slice` | src/Adrai/TextEmbedding/Native/sqlite-vec.c:1587-1684 | refuses exactly bounds that are negative, out of range, empty or, for bit vectors, not whole bytes; otherwise returns those elements |
| `Quantize.SliceElements` | src/Adrai/TextEmbedding/Native/sqlite-vec.c:1629-1684 | the slice has end - start elements, and element i is element start + i |
| `Quantize.QuantizeThenSlice` | src/Adrai/TextEmbedding/Native/sqlite-vec.c:1376-1400 | quantisation commutes with slicing at whole bytes |
| `Quantize.SlicesCompose` | src/Adrai/TextEmbedding/Native/sqlite-vec.c:1629-1684 | a slice of a slice is a slice, refused under the same bounds |
| `Quantize.QuantizedDistance` | src/Adrai/TextEmbedding/Native/sqlite-vec.c:514-520 | the Hamming distance of two quantised vectors is the number of dimensions on which "value > 0" differs |
| `Quantize.JsonOrder` | src/Adrai/TextEmbedding/Native/sqlite-vec.c:1723-1725 | vec_to_json reads the bits in the order quantisation wrote them |
| `Quantize.EachOrder` | src/Adrai/TextEmbedding/Native/sqlite-vec.c:2569-2574 | vec_each reads each byte from its highest bit on |
| `Quantize.OrdersAgree` | src/Adrai/TextEmbedding/Native/sqlite-vec.c:2559-2581 | the two orders agree on a vector exactly when every byte reads the same in both directions |
| `Quantize.EachOrderExample` | src/Adrai/TextEmbedding/Native/sqlite-vec.c:2569-2574 | a quantised vector whose first element is positive is listed with its last one positive |
| `Numbers.AtoiIsAtoi` | src/Adrai/TextEmbedding/Native/sqlite-vec.c:2352 | a conversion with the two properties that the C standard gives atoi exists: it reads printed numbers back, whatever follows them, and blanks as 0 |
| `ColumnParser.NextToken` | src/Adrai/TextEmbedding/Native/sqlite-vec.c:1824-1880 | a token that is found ends strictly beyond the place the search began |
| `ColumnParser.TokenNext` | src/Adrai/TextEmbedding/Native/sqlite-vec.c:1824-1880 | the loop finds the next token of the text |
| `ColumnParser.ScannerNext` | src/Adrai/TextEmbedding/Native/sqlite-vec.c:1892-1898 | the scanner moves only past a token it found, and otherwise leaves the caller's token alone |
| `ColumnParser.ParseValue` | src/Adrai/TextEmbedding/Native/sqlite-vec.c:2385-2408 | the value of an option, with the leftover token standing in for a missing one |
| `ColumnParser.ParseOptions` | src/Adrai/TextEmbedding/Native/sqlite-vec.c:2363-2414 | the option loop ends on every text, whatever token is left over, with the metric of the last option |
| `ColumnParser.ParseVectorColumn` | src/Adrai/TextEmbedding/Native/sqlite-vec.c:2294-2425 | the result is a function of the text: neither uninitialised nor leftover tokens show |
| `ColumnParser.PlainText` | src/Adrai/TextEmbedding/Native/sqlite-vec.c:2294-2425 | `name type[N]` is read back for every legal name, every type and every N from 1 to the largest int |
| `ColumnParser.TextWithMetric` | src/Adrai/TextEmbedding/Native/sqlite-vec.c:2294-2425 | `name type[N] distance_metric=m` is read back too, and refused for bit columns |
| `ColumnParser.TypesIgnored` | src/Adrai/TextEmbedding/Native/sqlite-vec.c:2317-2361 | of the tokens in front of the options only the second has its type tested: a number for the name and any punctuation for the brackets, as in "1 float=3+", make a column too |
| `ColumnParser.MissingEquals` | src/Adrai/TextEmbedding/Native/sqlite-vec.c:2385-2396 | "name type[N] distance_metric m", without the equals sign, means the same as with it |
| `ColumnParser.PunctuationIsAnOption` | src/Adrai/TextEmbedding/Native/sqlite-vec.c:2377-2401 | "name type[N]" and any three punctuation characters, as in "a float[3]]]]", means the same as without them, except on bit columns |
| `ColumnParser.LastOptionWins` | src/Adrai/TextEmbedding/Native/sqlite-vec.c:2361-2412 | name type[N] followed by any number of distance_metric=m means the column with the last metric, and is refused on bit columns |
| `ParserLetters.TokenIs` | src/Adrai/TextEmbedding/Native/sqlite-vec.c:1824-1880 | what a token is: blanks are skipped, a word or number goes on as long as it can, four characters stand alone, and no other character is taken |
| `ParserLetters.ElementIs` | src/Adrai/TextEmbedding/Native/sqlite-vec.c:2329-2340 | a type is float, f32, int8, i8 or bit, in letters of either case, with anything behind it |
| `ParserLetters.MetricIs` | src/Adrai/TextEmbedding/Native/sqlite-vec.c:2380-2408 | the key and the metrics are distance_metric, l2, l1 and cosine or a beginning of them, in letters of either case |
| `ParserLetters.CaseIsIgnored` | src/Adrai/TextEmbedding/Native/sqlite-vec.c:2329-2404 | texts that differ only in the case of letters and in which blank stands where mean the same, whatever else they hold: the same refusal, or the same type, dimension and metric and the name from the same place |
| `ParserLetters.AnyCaseIsRead` | src/Adrai/TextEmbedding/Native/sqlite-vec.c:2329-2404 | name type[N] with any metric options is read in every spelling of its words, as "a FLOAT[3] Distance_Metric=COSINE" |
| `ParserLetters.AtoiIgnoresCase` | src/Adrai/TextEmbedding/Native/sqlite-vec.c:2352 | the conversion of Numbers.Atoi gives the same number for such texts |
| `ParserTokens.OptionsAre` | src/Adrai/TextEmbedding/Native/sqlite-vec.c:2361-2412 | the options are tokens in threes, a key, anything and a metric, where the middle one of the last three may be missing; the last metric counts, and a bit column has no options |
| `ParserTokens.MeaningOfTokens` | src/Adrai/TextEmbedding/Native/sqlite-vec.c:2294-2425 | the meaning of every text, read off its tokens: a vector column by its second token, refused with fewer than five tokens, a character that is no token, a dimension that is not positive or a bad option |
| `Quoting.QuoteArgument` | tools/RetainedTests/OwnedJob.cs:609-638 | the printed argument is quoted exactly when it is empty or holds a blank, tab, line feed, vertical tab or quote |
| `Quoting.PrintedAsItStands` | tools/RetainedTests/OwnedJob.cs:611-612 | an argument is printed as it stands exactly when it is not empty and holds no blank, tab, line feed, vertical tab or quote |
| `Quoting.PrintedPieces` | tools/RetainedTests/OwnedJob.cs:614-637 | inside quotes the backslashes before a quote and before the end are doubled, a quote gets one more, and everything else stays |
| `Quoting.ReaderRules` | tools/RetainedTests/OwnedJob.cs:609-638 | the rules of the reader: an even run of backslashes before a quote is halved and the quote opens or closes a part, an odd run is halved and the quote is taken, other backslashes stand for themselves, and a blank outside quotes ends the argument |
| `Quoting.BuildCommandLine` | tools/RetainedTests/OwnedJob.cs:596-607 | the command line is the executable and then each argument behind a blank |
| `Quoting.ReadQuoted` | tools/RetainedTests/OwnedJob.cs:609-638 | the argument rule reads a printed argument back and stops behind it |
| `Quoting.ArgumentsRoundTrip` | tools/RetainedTests/OwnedJob.cs:596-638 | for every argument list, parsing the printed arguments gives back exactly that list, however the parser treats "" |
| `Quoting.CommandLineRoundTrip` | tools/RetainedTests/OwnedJob.cs:596-638 | the same behind any executable without quotes; the executable itself comes back exactly when it is not both quoted and ended by a backslash |
| `Quoting.SealedRoundTrip` | tools/RetainedTests/OwnedJob.cs:596-638 | the arguments come back behind every executable whose quotes are paired, counting those of the printer, and that has no blank outside the pairs |
| `Quoting.NameEndsIffSealed` | tools/RetainedTests/OwnedJob.cs:596-607 | the program name ends where the arguments begin exactly for those executables, if there are arguments |
| `Quoting.QuoteInNameSwallowsArguments` | tools/RetainedTests/OwnedJob.cs:596-607 | an unpaired quote in the executable makes all arguments printed without quotes part of the name |
| `Quoting.SwallowExample` | tools/RetainedTests/OwnedJob.cs:596-607 | the executable that consists of one quote is such a case |
| `Numbers.TryParseDecimal` | tools/RetainedTests/LinuxOwnedJob.cs:70-78 | a printed number is parsed back exactly when it fits in 32 bits |
| `Numbers.PrintedExamples` | tools/RetainedTests/linux_owner.c:175 | 0, 768 and -12 are printed as "0", "768" and "-12" |
| `OwnerStatus.TakeRendered` | tools/RetainedTests/LinuxOwnedJob.cs:69-81 | on the lines the controller prints, the string comparisons decide exactly the line order |
| `OwnerStatus.StreamIsUnderstood` | tools/RetainedTests/LinuxOwnedJob.cs:57-85 | any sequence of printed lines is framed without truncation, and the reader fails exactly when the line order does |
| `OwnerStatus.StatusReader.Frame` | tools/RetainedTests/LinuxOwnedJob.cs:66-82 | one frame changes the known facts as the chain of conditions says, or is refused without effect |
| `OwnerStatus.StatusReader.ReadStatus` | tools/RetainedTests/LinuxOwnedJob.cs:51-92 | after the stream has ended the reader knows what its frames told, has failed exactly on a bad or unfinished frame, and has then requested a stop |
| `OwnershipFrames.FrameIsLine` | tools/RetainedTests/LinuxOwnedJob.cs:66-82 | a frame is taken as the one line it shows, a word with a number behind it or a word alone, and refused when it shows none |
| `OwnershipFrames.StreamIsRead` | tools/RetainedTests/LinuxOwnedJob.cs:51-92 | the reader gets through a stream exactly when it ends in a line feed, no frame has more than 80 characters, and the frames show lines in an order that is accepted; it then knows what those lines say |
| `OwnershipFrames.AcceptedIffInOrder` | tools/RetainedTests/LinuxOwnedJob.cs:69-81 | lines are accepted exactly when no kind is repeated, READY stands behind CREATED and EXEC behind READY |
| `OwnerController.DrainKillsOnce` | tools/RetainedTests/linux_owner.c:194-214 | one drain calls the kill at most once, only if it was not called before, and prints a fault exactly when that call is refused |
| `OwnerController.Controller.StopOnce` | tools/RetainedTests/linux_owner.c:178-181 | the kill is attempted only once |
| `OwnerController.Controller.HandleCommand` | tools/RetainedTests/linux_owner.c:183-193 | A is passed on once and G only after READY; anything else stops the namespace |
| `OwnerController.Controller.HandleEvent` | tools/RetainedTests/linux_owner.c:205-210 | each event is announced once, EXECUTED only after READY; anything else stops the namespace |
| `OwnerController.Controller.DrainChannel` | tools/RetainedTests/linux_owner.c:194-214 | the drain handles every message up to the first answer that is none |
| `OwnerController.Controller.RunPass` | tools/RetainedTests/linux_owner.c:176-225 | stop, poll, command, drain and reaping in this order, each only when poll allows it: the effect OnPass, which the next three rows tie to the state machine |
| `OwnershipPasses.PassSimulates` | tools/RetainedTests/linux_owner.c:176-225 | in every run in which the controller makes the actions of a pass, whatever the other parties do in between, its flags become and it prints what one pass of the loop computes |
| `OwnershipPasses.EveryPassHasRun` | tools/RetainedTests/linux_owner.c:176-225 | for every pass that is possible in a state there is a run with exactly its flags, lines and bytes sent |
| `OwnershipPasses.PassKillsOnce` | tools/RetainedTests/linux_owner.c:176-225 | a pass attempts the kill at most once, only if it was not attempted before, and prints a fault exactly when that attempt is refused |
| `OwnerController.Controller.Finish` | tools/RetainedTests/linux_owner.c:219-220 | TREE is printed last, after an error when nothing else explains the end; OwnershipEnd.LastLinesAre says when that is |
| `OwnershipInvariant.StepKeeps` | tools/RetainedTests/linux_owner.c:67-230 | every step of host, controller, init, kernel and members keeps the protocol invariant |
| `OwnershipEnd.KillEffect` | tools/RetainedTests/linux_owner.c:31-37 | in a reachable state the first signal, failing poll, command or message that calls for the kill is the only one that makes it; a refused kill prints FAULT with its errno, any other counts as a cancellation, and a delivered one reaches init |
| `OwnershipEnd.FlagsTellKills` | tools/RetainedTests/linux_owner.c:178-214 | in every run from the start the kill was attempted exactly when some action called for it, and the job counts as cancelled exactly when the first such kill was delivered or found init gone |
| `OwnershipEnd.LastLinesAre` | tools/RetainedTests/linux_owner.c:215-224 | when init has been reaped the last lines are ERROR 10 and TREE if no ROOT and no ERROR was printed and no kill of the run succeeded, and TREE alone otherwise |
| `OwnershipEnd.MessageIsAnnounced` | tools/RetainedTests/linux_owner.c:205-210 | a message that is new, and for EXECUTED behind READY, is announced by its line with its number |
| `OwnershipEnd.CommandIsPassedOn` | tools/RetainedTests/linux_owner.c:183-193 | the first A, and G after READY, go to init unless the kill was attempted, and nothing else does; any other byte and the end close the control pipe |
| `OwnershipEnd.ChannelCloses` | tools/RetainedTests/linux_owner.c:200 | the channel counts as closed exactly once its end was read |
| `OwnershipEnd.HostGoesOn` | tools/RetainedTests/LinuxOwnedJob.cs:115-134 | the host goes on with a launch exactly when it has read the line it waits for, no ERROR, no FAULT, and nothing that breaks the order |
| `OwnershipEnd.HostCloses` | tools/RetainedTests/LinuxOwnedJob.cs:85-114 | the host closes the control pipe when it gives up, stops the job or dies, or reads a line that breaks the order |
| `OwnershipEnd.ClosedIsSilent` | tools/RetainedTests/LinuxOwnedJob.cs:106-114 | on a closed control pipe neither A nor G is ever sent |
| `OwnershipSafety.EmptyMeansEmpty` | tools/RetainedTests/LinuxOwnedJob.cs:194-204 | when WaitForEmpty answers true, TREE was printed last and read, init was reaped or never forked, no member is alive, and none ever will be |
| `OwnershipSafety.EmptyWhenTreeWithoutFault` | tools/RetainedTests/LinuxOwnedJob.cs:194-204 | once the stream is read, the answer is true exactly when TREE and no FAULT was printed |
| `OwnershipSafety.LaunchInOrder` | tools/RetainedTests/linux_owner.c:67-110 | the launch milestones happen in one order, each at most once; no member exists before host A, final credentials, the armed signal, the owner check, READY and G |
| `OwnershipSafety.DeathBeforeGo` | tools/RetainedTests/linux_owner.c:78-91 | when the controller is gone before it passed G on, no run ever forks the payload |
| `OwnershipSafety.DeathKills` | tools/RetainedTests/linux_owner.c:80-83 | when it is gone after the owner check, init has a kill pending or no longer runs |
| `OwnershipSafety.StreamConforms` | tools/RetainedTests/LinuxOwnedJob.cs:51-92 | every stream a controller can print is accepted by the reader, except exactly when waitpid fails after a launch error was printed |
| `OwnershipSafety.EachLineOnce` | tools/RetainedTests/linux_owner.c:171-230 | no kind of line is printed twice, except a second ERROR when waitpid fails after a launch error |
| `OwnershipSafety.TwoErrors` | tools/RetainedTests/linux_owner.c:217-230 | in that case there are two |
| `OwnershipSafety.TwoErrorsExample` | tools/RetainedTests/linux_owner.c:217-230 | a run reaches that case: init fails, its error is printed, and waitpid fails |
| `OwnershipSafety.EmptyExample` | tools/RetainedTests/LinuxOwnedJob.cs:194-204 | a run reaches a state in which WaitForEmpty answers true |
| `OwnershipLaunch.LaunchExample` | tools/RetainedTests/LinuxOwnedJob.cs:135-204 | a run passes every gate, executes the payload, prints CREATED, READY, EXEC, ROOT 3 and TREE, and ends in a state in which WaitForEmpty answers true |
| `OwnershipLaunch.CancelExample` | tools/RetainedTests/linux_owner.c:215-224 | a run stops a job that executes: it prints CREATED, READY, EXEC and TREE, no ERROR, and WaitForEmpty answers true |
| `OwnershipSafety.RootBeforeTree` | tools/RetainedTests/linux_owner.c:194-224 | TREE is the last line, and a payload exit that init sent is printed before it |

## Left out

- SQLite itself: SQL text, prepared statements, blob handles, mutexes, allocation failures and error messages.
- OFFSET, and a list in the place of k. LIMIT is taken over as k, OFFSET stays with SQLite, which skips that many of the k rows; `k in (...)` gives each scan another k, and `WhereClause` takes k as a single value.
- SQLite's verdict on the constraints that only SQLite can judge, such as those on `distance` or with terms that are not usable: `WhereClause` takes it as a parameter. Whether LIMIT is offered to the table at all is SQLite's decision.
- Text primary keys and auxiliary columns: they are one more map each.
- Exhaustion of chunk ids, and texts whose length does not fit in 32 bits.
- The bytes of distances: AVX and NEON code, rounding, NaN, cosine, normalisation and int8 quantisation.
- Texts with an embedded NUL in metadata constraints: strncmp stops there, so only NUL-free texts are compared with SQL.
- Affinity: right-hand sides that bring one along, such as a typed column of another table, and partition values.
- A NULL right-hand side of a text comparison is a null pointer of length 0; the model reads it as an empty text, also where a range operator would hand the pointer to strncmp.
- Rounding of 64-bit integers to doubles when a float column is compared with them.
- JSON text of vectors, and the cursor that steps through the hits of a query.
- `vec_npy_*` and `vec_static_blob*`, which are never registered.
- The parsers of partition, metadata, auxiliary and primary key columns and of table options: `Columns` starts from their results.
- The popcount replacement for Microsoft's ARM compiler; a 32-bit long is covered by `Hamming.NarrowLong`.
- Win32 job objects, handle snapshots and environment blocks in `OwnedJob.cs`.
- Writing of uid and gid maps, file opening, poll time-outs and millisecond budgets of the Linux owner; a payload killed before exec counts as executed, as the empty error pipe cannot tell the two apart.
- Progress of the ownership protocol: the lemmas say what is never wrong, not that a step is eventually taken.
- The remaining helpers written in C, the browser bridge, PowerShell tools and Haskell drivers.
