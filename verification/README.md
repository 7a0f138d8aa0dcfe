# Storage structures of a small JSON database

A model of the storage layer of the database and proofs of what it keeps and promises.

The model follows the program's own layers, one module or a few to each:

- **The B+ tree** (`BTreeNodes`, `BTreeModel`, `BTreeInvariant`, `BTreeMoves`, `BTreeSearch`, `BTreeFacts`, `BTreeDeletes`,
  `BTreeSiblings`, `BTreeCounts`, `InMemoryAdapter`, `BPlusTree`, `BTreeStuck`, `BTreeStray`, `BTreeRuns`). Nodes live in a map from ids to nodes with parent ids and sibling links, as in
  the program. A ghost tree says what shape the nodes are in; the invariant (`Sound`, `RootGood`) is that nodes and tree agree,
  parent ids are exact, every level is linked from left to right, separators are bounds (not copies) of the keys beside
  them, all leaves are equally deep, and all nodes but the root are filled from half to full. What a call does to single nodes - who is split, who
  lends, who is freed - is stated on links, parent ids and sizes alone (`BTreeSiblings`). Main result: `BTreeRuns.Run`.
- **The record page** (`DataBlock`, `RecordPage`, `PageView`, `RecordBlock`). Bytes of a block, the headers in them, and the
  rows that they show. Main results: `RecordBlock.Add`, `Remove`, `SoftRemove` and `Defragment` on the view of a page.
- **The map of free blocks** (`BlockMap`), down to the bits.
- **The heap of records** (`HeapModel`, `HeapWrites`, `HeapRemovals`, `HeapRecords`, `HeapOwners`, `RecordHeap`). Records split over pages,
  chained by row ids, on a doubly linked list of pages. Main results: `Add`, `Load`, `Remove` and `Update` refine the same
  operations on a map from row ids to data (`Records`).
- **The database** (`IndexedHeap`, `Database`, `DatabaseRuns`): the tree as index over the heap, with the blocks that its nodes take from the same
  map of free blocks. Main results: `Insert`, `Find`, `Update`, `Delete` and `Search` refine the same operations on one map from ids to data, while
  every id leads to the first row of its record, every row of the heap belongs to exactly one record that the index knows, and every node has a block of
  its own. `DatabaseRuns.Run`: a run of insertions, deletions and look-ups that has room for its data and for the index never goes wrong in a *clean*
  database. Clean means: all four repairs named below are made (`relinkCousins`, `dropsRight`, `clearsNext`, `clearsNodes`), free blocks are blank and no
  pointer back is lost. The program as it is has none of the repairs; what goes wrong without each of them is said below.
- **The buffer** (`DataBuffer`): a second-chance write-back cache over a file that may fail. Main result: `DataBuffers.Run`.
- **Packed index nodes** (`PackedNodes`, `PackedRuns`): the node operations of the tree on the bytes of a block, and that
  they do what the operations on lists of entries do. Main result: `PackedRuns.Run`.

Where the program does not keep its own intent, the model keeps the program and says exactly when it goes wrong:

- A branch merge relinks its successor below the same parent only (src/bplustree/bplus_tree.go:175). Left links stay exact if and
  only if there is no successor or it has the same parent (`MergeLosesLink`). Otherwise one leads to a freed branch, and a later
  delete may find no partner. `Delete` panics if and only if `StallsAt` holds, which follows the path of the key and the sizes of
  the neighbours before the call. `StuckDelete` is about the store of 29 nodes that inserting 1 to 43 and deleting 7 lead to with capacities 4:
  deleting 19 panics there. With the constant `relinkCousins` the successor is always relinked, as leaf merges do, and no delete panics.
- Clearing a page keeps its pointer to the next page (src/simplejsondb/core/record_block.go:205-208), so a block that is given
  back and taken again would lead into the middle of the list: `AppendExact` and `FreedBlank`. Inserting therefore asks that
  free blocks are blank (`Blanks`), which removal keeps with the constant `clearsNext`, and without it when no page is freed.
- Soft removal writes zeros of four bytes over fields of two (src/simplejsondb/core/record_block.go:191-193): `SoftExact` says which row
  and which pointer suffer, and `SoftBack` which pointers back the list of pages loses (`Lost`).
- A page whose pointer back is lost is taken for the first of the list when it is emptied: taking it out keeps the list linked if and only
  if its pointer back is exact (`UnlinkExact`). Removal and update ask for exact pointers only where a page may be emptied (`Leavable`).
- In packed form a key strictly inside a branch goes with the child on the wrong side
  (src/simplejsondb/core/uint32_index_node_adapter.go:356): `DeletesAgree`. When two nodes have been merged, the live one is lost. `Delete` loses a child
  if and only if `StraysAt` holds, that is if some branch on the chain of merges loses a key strictly inside; no tree is stored then (`DanglingUnsound`).
  `StrayDelete` is the tree of the database after inserting 1 to 1276: deleting 300 makes it lose 254 other keys. With the constant `dropsRight`
  branches drop the child on the right, as the in-memory form does, and nothing is lost.
- A node that is freed leaves its bytes in its block (src/simplejsondb/core/uint32_index_node_adapter.go:103-108), and a record page that gets the block
  reads them as headers. `TakeBack` says exactly when the heap is still sound. With the constant `clearsNodes` the block is left as a blank page.
- Block ids 8k and 8k + 1 share a bit (src/simplejsondb/dbio/bit_map.go:55-59); ids 8k + 1 are never handed out (`Allocate`).
- A block written and not marked is lost when it is evicted: `FetchBlock` says exactly when (`Drops`), and `WriteUnmarked` says so over any number of
  later fetches: the file keeps its old bytes, and they are what is read once the block has been evicted. Which node operations leave their
  block unmarked is part of the contracts in `PackedNodes` (`dirty`).
  `IndexedHeap`, `Database` and `DatabaseRuns` are about blocks that keep what is written to them, as a buffer that never evicts does.

## Model

| member | source | states |
|---|---|---|
| BTreeRuns.Run | src/bplustree/bplus_tree.go:38-80 | Any run of insertions, deletions and look-ups answers as a finite map does and leaves the tree holding that map, up to a delete that gets stuck or loses a child; where it stops, the tree stood for the map of the operations before and holds the key, and the delete of that key ends so in it; with both repairs of the tree no run stops. |
| BTreeRuns.Step | src/bplustree/bplus_tree.go:38-80 | One operation refines the same operation on the map, answer included; it gets stuck, or goes astray, if and only if it deletes a key that is there and the tree stalls, or strays, at it. |
| BTreeStuck.StuckDelete | src/bplustree/bplus_tree.go:122-190 | The store that inserting 1 to 43 and deleting 7 leave with capacities 4 keeps every invariant of the unrepaired tree, branch 17 has its left link at 13, which is gone, and deleting 19, which is there, reaches the panic at line 154. |
| BTreeStray.StrayDelete | src/simplejsondb/core/uint32_index_node_adapter.go:341-360 | The tree of keys 1 to 1276 with the capacities of the database keeps every invariant, and deleting 300 over packed nodes takes the live leaf 2, with all keys from 256 to 510, from the root and keeps the freed leaf 4; over lists it goes through. |
| BPlusTrees.BPlusTree.Insert | src/bplustree/bplus_tree.go:38-57 | A new key is added with its item and nothing else changes; a known key is an error and changes neither nodes nor contents; all invariants hold afterwards; it frees no node. In the store: the entry goes to the leaf of the key, between the smaller and the larger keys; a node is made if and only if that leaf is full, no other node changes if it is not, and if it is the leaf is cut at half the capacity and no other leaf changes. |
| BPlusTrees.BPlusTree.Delete | src/bplustree/bplus_tree.go:59-80 | An absent key is an error and changes nothing; otherwise exactly that key is gone and all invariants hold, or the call panics; it panics if and only if the key is there and `StallsAt` holds before, and never with the relinking repaired; it loses a child, so that no tree is stored any more, if and only if `StraysAt` holds before, and never with the dropping repaired; it makes no node. In the store (`TakenFrom`, links and sizes only): a node is freed if and only if the leaf of the key is too small now and no sibling that a link leads to below the same parent has more than half its capacity; a delete that frees none ends well; the sibling on the right lends its first entry, else the one on the left its last, and merging takes the one on the right if there is one. |
| BPlusTrees.BPlusTree.Find | src/bplustree/bplus_tree.go:317-337 | Agrees with look-up in the map the tree holds, with and without a root. |
| BPlusTrees.BPlusTree.All | src/bplustree/bplus_tree.go:339-349 | Hands out exactly the entries of the tree, once each, in strictly increasing key order. |
| BPlusTrees.BPlusTree.FindOnNode | src/bplustree/bplus_tree.go:351-360 | The binary search ends at the first key that is not smaller, and says whether it is the key looked for. |
| BPlusTrees.BPlusTree.FindLeafForKey | src/bplustree/bplus_tree.go:362-379 | The way down ends at the one leaf whose separators enclose the key, for every tree that keeps the invariants. |
| BPlusTrees.BPlusTree.FindChildForKey | src/bplustree/bplus_tree.go:362-379 | One step down leads to the child whose separators enclose the key. |
| BPlusTrees.BPlusTree.FindEntry | src/bplustree/bplus_tree.go:317-337 | The position found splits the entries of the whole tree into smaller and larger ones, whether the key is there or not. |
| BPlusTrees.BPlusTree.LeafFor | src/bplustree/bplus_tree.go:38-80 | The leaf taken for a key is the same whether the root is a leaf or a branch. |
| BPlusTrees.BPlusTree.InsertOnLeaf | src/bplustree/bplus_tree.go:381-400 | Puts the entry in its leaf and splits a full one; the tree holds the entries with the new one in order, and no panic is reached; a node is made if and only if the leaf was full, and no other leaf changes. |
| BPlusTrees.BPlusTree.LeafSplit | src/bplustree/bplus_tree.go:402-423 | A full leaf and the new entry become two leaves, cut at half the capacity and linked to each other and to the leaf behind them. |
| BPlusTrees.BPlusTree.LeafCut | src/bplustree/bplus_tree.go:402-423 | All positions of the new entry, left of the cut or right of it, give the same two halves. |
| BPlusTrees.BPlusTree.InsertOnBranch | src/bplustree/bplus_tree.go:425-444 | A new child goes behind its left neighbour, and a full branch is split in turn; a node is made if and only if the branch was full, and no leaf changes; the panic at line 441 is not reached. |
| BPlusTrees.BPlusTree.BranchSplit | src/bplustree/bplus_tree.go:446-482 | The three cases of the position give one result: the keys on both sides of the middle one, with their children, parents set; the panic at line 454 is not reached. |
| BPlusTrees.BPlusTree.FindMinimum | src/bplustree/bplus_tree.go:484-495 | The least key below a branch. |
| BPlusTrees.BPlusTree.SetSiblings | src/bplustree/bplus_tree.go:511-520 | The new right neighbour takes over the right link, and the node behind it points back to the new one. |
| BPlusTrees.BPlusTree.AllocateNewRoot | src/bplustree/bplus_tree.go:522-533 | A new root above two nodes, both with it as their parent. |
| BPlusTrees.BPlusTree.DeleteFromLeaf | src/bplustree/bplus_tree.go:82-112 | Below half the capacity a leaf borrows from the right, then from the left, then merges: over the links and sizes in the store, a node is freed if and only if the leaf is too small and neither sibling below the same parent can spare an entry; which entry moves which way, which slot of the parent changes, and which leaf is freed (`LeafSettled`). The entries stay the same but for the deleted one; the panic of a branch above is reached, or a child lost, if and only if `Ends` says so. |
| BPlusTrees.BPlusTree.DeleteFromBranch | src/bplustree/bplus_tree.go:122-156 | A branch that loses a key borrows, merges or becomes superfluous as root; the entries stay the same and no leaf changes, and it ends as `Ends` says: through, at the panic, or with a lost child where a packed branch loses a key strictly inside. |
| BPlusTrees.BPlusTree.RebalanceBranch | src/bplustree/bplus_tree.go:122-156 | A branch that has lost its key: over the links and sizes in the store, a node is freed if and only if the branch is too small, has a sibling below the same parent and none that can spare a key; the right one lends its first child, else the left one its last, which keys and slots change with it, and which branch is freed otherwise; without any sibling in sight the call stops there and nothing has changed (`BranchSettled`). |
| BPlusTrees.BPlusTree.PipeFromRightLeaf | src/bplustree/bplus_tree.go:265-275 | The first entry of the right leaf moves over and the slot found by its key is the one between the two, which gets the first key left on the right; nothing else in the store changes. |
| BPlusTrees.BPlusTree.PipeFromLeftLeaf | src/bplustree/bplus_tree.go:277-289 | The last entry of the left leaf moves over and becomes the new separator, in the slot found by the old first key; nothing else in the store changes. |
| BPlusTrees.BPlusTree.MergeLeaves | src/bplustree/bplus_tree.go:291-315 | The right leaf is poured into the left one and freed, the leaf behind it points back to the left one, no other leaf changes, and the parent loses the slot between the two. |
| BPlusTrees.BPlusTree.PipeFromRightBranch | src/bplustree/bplus_tree.go:192-210 | The first child of the right branch moves over with its parent id, behind the key from between the two, where the least key left on the right comes in; nothing else in the store changes; separators stay bounds. |
| BPlusTrees.BPlusTree.PipeFromLeftBranch | src/bplustree/bplus_tree.go:212-231 | The last child of the left branch moves over with its parent id, before the key from between the two, where the last key on the left comes in; nothing else in the store changes; separators stay bounds. |
| BPlusTrees.BPlusTree.JoinBranches | src/bplustree/bplus_tree.go:158-182 | The keys and children of the right branch go to the left one, behind the least key below the right branch, and the successor is relinked exactly when it is below the same parent, or always with the repair. |
| BPlusTrees.BPlusTree.PourBranch | src/bplustree/bplus_tree.go:158-182 | The entries of the right branch go behind those of the left one with their parent ids, and the successor is relinked exactly when it is below the same parent (always with the repair), or when there is none. |
| BPlusTrees.BPlusTree.MergeBranches | src/bplustree/bplus_tree.go:158-190 | The right branch is poured into the left one and freed, all children get their new parent, no leaf changes, and the parent loses the slot between the two. |
| BPlusTrees.BPlusTree.SeparatorSlot | src/bplustree/bplus_tree.go:265-275 | Finding a key of the right neighbour in the parent gives the slot between the two, though separators may be stale. |
| BPlusTrees.BPlusTree.RightSibling | src/bplustree/bplus_tree.go:233-239 | The right neighbour counts only below the same parent. |
| BPlusTrees.BPlusTree.LeftSibling | src/bplustree/bplus_tree.go:241-247 | The left neighbour counts only below the same parent. |
| BPlusTrees.BPlusTree.NodeLimit | src/bplustree/bplus_tree.go:38-57 | A tree takes at most one node, and two for every half leaf of entries. |
| BPlusTrees.BPlusTree.NoDeadLinks | src/bplustree/bplus_tree.go:158-190 | With the relinking repaired every parent, sibling and child id of a node is 0 or a node, so an id may be used again. |
| BPlusTrees.BPlusTree.LeafChain | src/bplustree/bplus_tree.go:339-349 | Right links from the first leaf run over exactly the leaf level and spell out the entries in order. |
| BTreeSiblings.LentByRightIs | src/bplustree/bplus_tree.go:192-210 | What borrowing from the right writes to the store, in terms of links and slots alone. |
| BTreeSiblings.LentByLeftIs | src/bplustree/bplus_tree.go:212-231 | What borrowing from the left writes to the store, in terms of links and slots alone. |
| BTreeDeletes.MergeLosesLink | src/bplustree/bplus_tree.go:158-190 | In a store with exact left links the merge of two branches keeps them exact if and only if there is no branch after them, or it is below the same parent, or it is always relinked. |
| BTreeDeletes.LeftLinksAfterMerge | src/bplustree/bplus_tree.go:158-190 | Along a level whose left links are exact they stay so after a merge if and only if the successor has been relinked or there is none. |
| BTreeDeletes.NeverStalls | src/bplustree/bplus_tree.go:122-190 | With exact left links no chain of merges stalls, so the branch panic is unreachable. |
| BTreeDeletes.Neighbours | src/bplustree/bplus_tree.go:82-156 | What the sibling look-up finds are the neighbours below the same parent: the right one always, the left one as far as its link is exact, and always for leaves. |
| BTreeSearch.Descend | src/bplustree/bplus_tree.go:362-379 | The child taken for a key is the one whose separators enclose it. |
| BTreeSearch.EndsFrame | src/bplustree/bplus_tree.go:122-156 | How a chain of merges ends depends on the left links along the path to the root only. |
| BTreeSearch.NeverStrays | src/bplustree/bplus_tree.go:114-127 | Where branches drop the right child no chain of merges loses one. |
| BTreeSearch.DanglingUnsound | src/bplustree/bplus_tree.go:59-80 | Nodes with a child that is no node store no tree at all. |
| BTreeSearch.AllLinksLive | src/bplustree/bplus_tree.go:158-315 | Where left links are exact, all links of all nodes lead to nodes. |
| BTreeSearch.RightNeighbour | src/bplustree/bplus_tree.go:233-255 | The right link of a node leads to the child behind it in the parent, or out of the parent. |
| BTreeSearch.LeftNeighbour | src/bplustree/bplus_tree.go:241-263 | An exact left link leads to the child in front of it in the parent, or out of the parent. |
| BTreeSearch.ContentsAround | src/bplustree/bplus_tree.go:317-337 | Entries left and right of a place in the tree are below and above every key enclosed by its separators. |
| BTreeMoves.SplitLeafSound | src/bplustree/bplus_tree.go:402-423 | A leaf split keeps order, parent ids, both links on every level and the first leaf. |
| BTreeMoves.SplitBranchSound | src/bplustree/bplus_tree.go:446-482 | A branch split keeps order, parent ids of all moved children and the links on every level. |
| BTreeMoves.Grow | src/bplustree/bplus_tree.go:522-533 | A branch without keys put above the old root keeps a sound store sound. |
| BTreeMoves.MergeLeafSound | src/bplustree/bplus_tree.go:291-315 | A leaf merge keeps order, parent ids, both links and the first leaf, which is never freed. |
| BTreeMoves.MergeBranchSound | src/bplustree/bplus_tree.go:158-190 | A branch merge keeps order, parent ids and right links, and left links too where the successor is relinked. |
| BTreeMoves.BorrowLeafSound | src/bplustree/bplus_tree.go:265-289 | Sharing entries anew between two leaves keeps all invariants, with the new separator a bound on both sides. |
| BTreeMoves.BorrowRightSound | src/bplustree/bplus_tree.go:192-210 | Borrowing the first child of the right branch keeps all invariants. |
| BTreeMoves.BorrowLeftSound | src/bplustree/bplus_tree.go:212-231 | Borrowing the last child of the left branch keeps all invariants. |
| BTreeMoves.Collapse | src/bplustree/bplus_tree.go:122-127 | A root without keys gives way to its only child, and the store stays sound. |
| BTreeInvariant.Split | src/bplustree/bplus_tree.go:402-423 | Putting a new node behind another keeps a sound store sound. |
| BTreeInvariant.Merge | src/bplustree/bplus_tree.go:158-315 | Taking the second of two neighbours out keeps a sound store sound. |
| BTreeInvariant.Shuffle | src/bplustree/bplus_tree.go:192-289 | Moving contents between two neighbours keeps a sound store sound. |
| BTreeSearch.WrongChild | src/simplejsondb/core/uint32_index_node_adapter.go:341-360 | A packed branch that loses a key strictly inside after a merge keeps the freed child and loses the live one. |
| BTreeCounts.NodeCount | src/bplustree/bplus_tree.go:381-482 | Half-full leaves and branches with two children at least: (nodes - 1) times half a leaf is at most twice the number of entries. |
| BTreeStore.InMemoryAdapter.BranchDeletePacked | src/simplejsondb/core/uint32_index_node_adapter.go:341-360 | The list of entries after a deletion as packed nodes do it. |
| BTreeStore.InMemoryAdapter.LeafInsertAt | src/bplustree/in_memory_adapter.go:149-159 | The three ways of inserting give one result: the entry at its position and the others in order. |
| BTreeStore.InMemoryAdapter.BranchInsertAt | src/bplustree/in_memory_adapter.go:264-286 | At the front, at the end or inside, a key goes in at its position with its child on the right, and the entries around it agree about it. |
| BTreeStore.InMemoryAdapter.BranchDeleteAt | src/bplustree/in_memory_adapter.go:224-235 | The first key goes with its left child, any other with its right child. |
| BTreeStore.InMemoryAdapter.BranchDeleteFrom | src/bplustree/in_memory_adapter.go:241-245 | Cuts a branch into the entries that stay and those that are handed back, with the child between them on both sides. |
| BTreeStore.InMemoryAdapter.BranchShift | src/bplustree/in_memory_adapter.go:247-251 | The first key goes with the child on its right. |
| BTreeStore.InMemoryAdapter.BranchUnshift | src/bplustree/in_memory_adapter.go:288-295 | A key and a child go in front. |
| RecordBlocks.RecordBlock.Defragment | src/simplejsondb/core/record_block.go:327-364 | The overlapping moves keep the bytes of every row as read through its header, rows then lie end to end from 0 on, and dead headers have size 0. Where each header starts afterwards, as sums of the sizes before (`Compacted`): a gap where everything had ended when it was closed, anything else where the live rows in front of it end. |
| RecordBlocks.RecordBlock.CloseGap | src/simplejsondb/core/record_block.go:327-364 | One pass of the outer loop: every row and gap keeps its bytes, one gap goes. |
| RecordBlocks.RecordBlock.MoveRow | src/simplejsondb/core/record_block.go:341-352 | The inner loop moves the bytes of one row down and points its header there. |
| RecordBlocks.RecordBlock.SortByStart | src/simplejsondb/core/record_block.go:366-376 | Headers come in order of where their rows start, every one once; ties may come in any order. |
| RecordBlocks.RecordBlock.FindHeader | src/simplejsondb/core/record_block.go:80-97 | The header of the same id, else the dead one whose start is the least, else none. |
| RecordBlocks.RecordBlock.Add | src/simplejsondb/core/record_block.go:72-146 | On a page that is as it should be, perhaps with one row softly removed, the row reads back from the slot it took, no other row has changed, and the page is as it should be again. Without a header of the id the slot is the dead header with the least start; all headers afterwards are given, the new one with start, size and no chain, the others as they were or as compaction leaves them. |
| RecordBlocks.RecordBlock.Remove | src/simplejsondb/core/record_block.go:148-173 | Exactly the row is gone and its slot is free; other rows and pointers stay, and an invalid local id changes nothing; of the headers only the id of this one changes, to 0; the page stays as it should be if and only if the slot was not a free one with a size left in its header. |
| RecordBlocks.RecordBlock.SoftRemove | src/simplejsondb/core/record_block.go:175-203 | The row keeps its id and loses data and chain; what the four-byte zeros spill over is as `SoftView` says on rows and `Spilled` on headers, and the page takes the row back when the row before has a small id; a free slot loses no data. |
| RecordBlocks.RecordBlock.ReadRecordData | src/simplejsondb/core/record_block.go:283-302 | The data of the row, or an error for a free or unknown local id. |
| RecordBlocks.RecordBlock.ChainedRowID | src/simplejsondb/core/record_block.go:246-262 | The row that a row is chained to, or an error for a free or unknown local id. |
| RecordBlocks.RecordBlock.SetChainedRowID | src/simplejsondb/core/record_block.go:264-281 | Chains one row to another and changes nothing else, in rows and headers. |
| RecordBlocks.RecordBlock.TotalRecords | src/simplejsondb/core/record_block.go:218-226 | The number of rows on the page. |
| RecordBlocks.RecordBlock.FreeSpaceForInsert | src/simplejsondb/core/record_block.go:304-325 | The room for the data of one more row, its header counted when no slot is free. |
| RecordBlocks.RecordBlock.Clear | src/simplejsondb/core/record_block.go:205-208 | No rows are left, and both pointers stay. |
| RecordBlocks.RecordBlock.ParseHeaders | src/simplejsondb/core/record_block.go:378-396 | The headers by local id. |
| PageViews.AddOk | src/simplejsondb/core/record_block.go:72-146 | The bytes written by an insertion show the page with the new row, tiled without a gap, with the right utilization. |
| PageViews.OkView | src/simplejsondb/core/record_block.go:210-216 | Rows lie below the headers, and the utilization is 8 + 12 for every header + the sizes of all rows. |
| PageViews.ViewIds | src/simplejsondb/core/record_block.go:72-97 | Two rows of a page never have the same id. |
| PageViews.ViewRows | src/simplejsondb/core/record_block.go:72-146 | On a page as it should be every row has a non-zero id and some data. |
| PageViews.ChosenTakes | src/simplejsondb/core/record_block.go:80-97 | The slot chosen is the one of the row with the same id, else a free one, else a new one. |
| PageViews.SpaceFor | src/simplejsondb/core/record_block.go:304-325 | Data that fits the free space fits the page, with its header. |
| PageViews.SoftExact | src/simplejsondb/core/record_block.go:175-203 | Soft removal spares all other rows if and only if the row before has an id below 2^16 (or there is none), and the pointer back if and only if it is not the first row or the pointer is 0 already. |
| PageViews.SoftRest | src/simplejsondb/core/record_block.go:191-193 | What the three zeros of four bytes do to all headers and pointers. |
| PageViews.IdCleared | src/simplejsondb/core/record_block.go:159-167 | Clearing an id frees exactly that slot. |
| PageViews.FreeCleared | src/simplejsondb/core/record_block.go:148-170 | Removing from a slot that is free already changes no row, and spoils the utilization if and only if the header still has a size. |
| PageViews.ChainSet | src/simplejsondb/core/record_block.go:264-281 | Two numbers in a header change the chain of that row only. |
| PageViews.PageLayout | src/simplejsondb/core/record_block.go:28-46 | Where on a page the pointers to other pages, the number of headers and the bytes in use stand, most significant byte first; unset means 8 bytes in use. |
| PageViews.RowLayout | src/simplejsondb/core/record_block.go:283-302 | A row is the bytes of the page that its header gives. |
| RecordPages.LayoutStart | src/simplejsondb/core/record_block.go:327-364 | A page that is as it should be, its headers in order of position, is laid out end to end: what compaction starts from. |
| RecordPages.LayoutEnd | src/simplejsondb/core/record_block.go:327-364 | When all gaps are closed, live rows tile the area from 0 to the sum of their sizes and dead headers have size 0. |
| RecordPages.LayoutShift | src/simplejsondb/core/record_block.go:336-362 | Closing one gap keeps the layout for the gaps that follow. |
| RecordPages.TightApart | src/simplejsondb/core/record_block.go:72-146 | Rows and gaps do not overlap. |
| RecordPages.TightBound | src/simplejsondb/core/record_block.go:72-146 | Rows and gaps lie within the sum of all sizes. |
| RecordPages.HeaderLayout | src/simplejsondb/core/record_block.go:28-46 | Header k takes the twelve bytes that end at position 4088 - 12k: id, start, size, block and local id of the next row. |
| RecordPages.DealtShift | src/simplejsondb/core/record_block.go:327-364 | Closing one gap moves every header behind it to where the live rows before and the sizes between put it. |
| RecordPages.GapsTurn | src/simplejsondb/core/record_block.go:327-364 | Compaction turns the order of the gaps round, so the slot of the last one is taken first by a later insertion. |
| BlockMaps.ToggleLaw | src/simplejsondb/dbio/bit_map.go:49-62 | Toggling a bit turns the test of that bit around and leaves the tests of all others alone. |
| BlockMaps.LargerLaw | src/simplejsondb/dbio/bit_map.go:103-113 | Testing whether a byte gets smaller when one bit is toggled is testing that bit. |
| BlockMaps.ReadsBit | src/simplejsondb/dbio/bit_map.go:103-113 | Position i reads bit i mod 8 - 1 of byte i / 8, and bit 0 where 8 divides i. |
| BlockMaps.MaskSame | src/simplejsondb/dbio/bit_map.go:49-62 | Two positions of a byte share a bit if and only if they are equal or are 8k and 8k + 1. |
| BlockMaps.ToggledReads | src/simplejsondb/dbio/bit_map.go:49-62 | What toggling one position does to the reading of every other. |
| BlockMaps.BitMap.Get | src/simplejsondb/dbio/bit_map.go:103-113 | Positions outside the map are an error, but for position `Size()`, which passes the range check and panics; inside, the answer is the bit of the position, given by byte and shift. |
| BlockMaps.BitMap.Set | src/simplejsondb/dbio/bit_map.go:64-80 | Exactly the positions that share the bit read as set afterwards, whatever they were; out of range is an error, position `Size()` a panic, and both change nothing. |
| BlockMaps.BitMap.Unset | src/simplejsondb/dbio/bit_map.go:82-95 | Exactly the positions that share the bit read as clear afterwards; out of range is an error, position `Size()` a panic, and both change nothing. |
| BlockMaps.BitMap.constructor | src/simplejsondb/dbio/bit_map.go:18-23 | A new map of zeros reads false everywhere. |
| BlockMaps.UsableCount | src/simplejsondb/core/data_file_formatter.go:23-29 | A formatted file has 7165 blocks to hand out: an eighth of them all never is. |
| BlockMaps.DataBlocksMap.FirstFree | src/simplejsondb/core/data_blocks_map.go:24-43 | A non-zero result is the least id that reads as free; 0 means that all read as in use (id 0 being so). |
| BlockMaps.DataBlocksMap.MarkAsUsed | src/simplejsondb/core/data_blocks_map.go:53-59 | Exactly the ids that share the bit read as in use afterwards. |
| BlockMaps.DataBlocksMap.MarkAsFree | src/simplejsondb/core/data_blocks_map.go:45-51 | Exactly the ids that share the bit read as free afterwards. |
| BlockMaps.DataBlocksMap.IsInUse | src/simplejsondb/core/data_blocks_map.go:61-69 | Reads the bit of the block, from the first map for ids below 4096 and at the id less 4096 from the second one otherwise. |
| BlockMaps.DataBlocksMap.AllInUse | src/simplejsondb/core/data_blocks_map.go:71-88 | True if and only if every id reads as in use. |
| BlockMaps.DataBlocksMap.Allocate | src/simplejsondb/core/data_blocks_map.go:24-59 | First free, then mark: the least usable id that nobody holds, never one still held and never an id 8k + 1; 0 if and only if every usable id is held. |
| BlockMaps.DataBlocksMap.Release | src/simplejsondb/core/data_blocks_map.go:45-51 | A block given back is free again, and all others are held as before. |
| BlockMaps.DataBlocksMap.constructor | src/simplejsondb/core/data_file_formatter.go:23-29 | A formatted map: exactly the blocks 0 to 3 are held. |
| RecordHeaps.RecordHeap.Add | src/simplejsondb/core/record_allocator.go:26-70 | The heap, seen as a map from row ids to data, gains exactly one record at a new row id; the data may have any length that there is room for; free blocks stay blank, pointers back stay as they are, and the room for new records shrinks by the data and one header at most. The record starts on the last page of the list if that has room, in the slot of the dead header with the least start if there is one, and else in the first slot of a new page; every page from there to the one with the last piece is filled up. |
| RecordHeaps.RecordHeap.AllocateRecord | src/simplejsondb/core/record_allocator.go:72-129 | Data is split over as many pages as it takes; the rows are chained over later and later pages, read back as the data, and no other row changes; the first row takes the slot of the one softly removed if there is one; no page from the first piece up to the last one has room left. |
| RecordHeaps.RecordHeap.WriteFirst | src/simplejsondb/core/record_allocator.go:79-88 | The first piece: as much as fits on the starting page. |
| RecordHeaps.RecordHeap.NextPiece | src/simplejsondb/core/record_allocator.go:95-127 | One more piece on the next page with room, and the row before chained to it. |
| RecordHeaps.RecordHeap.FindSpace | src/simplejsondb/core/record_allocator.go:96-107 | The next page with room, through the list and beyond its end: all pages passed over are full; the search ends. |
| RecordHeaps.RecordHeap.AllocateNewBlock | src/simplejsondb/core/record_allocator.go:131-149 | The least free block becomes the new last page of the list; slots of all pages stay. |
| RecordHeaps.RecordHeap.Remove | src/simplejsondb/core/record_allocator.go:151-179 | Exactly the rows of the record go; exactly the pages that held rows of it and no others, but never the last page of the list, leave the list and are free again; and the map loses exactly this record. No pointer back is lost, free blocks stay blank where no page is freed or clearing is repaired, and only pages that the removal may empty need to point back exactly. An unknown row is an error and changes nothing. |
| RecordHeaps.RecordHeap.RemoveChain | src/simplejsondb/core/record_allocator.go:151-179 | The rows of a chain go from the last to the first, in a heap that is sound but for the one row whose chain has gone; which pages leave the list, and that no pointer back is lost. |
| RecordHeaps.RecordHeap.RemoveFromList | src/simplejsondb/core/record_allocator.go:181-225 | An emptied page leaves the list and is given back, unless it is the last one; the first page may change. |
| RecordHeaps.RecordHeap.Update | src/simplejsondb/core/record_allocator.go:227-250 | The record holds the new data at the same row id, whatever its length and the number of rows were and are; the panic is not reached; no row of another record changes; exactly the pages that held later rows of the record and no others, but never the last page, leave the list, which grows at its end only, and the new pieces fill up all pages before the last of them; the only pointer back that can be lost is the one of the page itself, and it is lost if and only if the row is the first of a page that is not the first of the list. |
| RecordHeaps.RecordHeap.Retract | src/simplejsondb/core/record_allocator.go:227-243 | The other rows of the record are gone, its first row is empty and keeps its id and its place; at least the room that was taken is there again. |
| RecordHeaps.RecordHeap.RemoveRow | src/simplejsondb/core/record_allocator.go:164 | Removing a row on its page is removing it from the heap. |
| RecordHeaps.RecordHeap.SoftRemoveRow | src/simplejsondb/core/record_allocator.go:239 | Soft removal on a page and what it spills over, seen in the heap. |
| RecordHeaps.RecordHeap.ClearPage | src/simplejsondb/core/record_allocator.go:216 | The cleared page keeps its pointer to the next one, unless repaired. |
| RecordHeaps.RecordHeap.Load | src/simplejsondb/core/record_loader.go:21-54 | Follows the chain to its end and gives exactly what the record holds; an unknown row is an error. |
| RecordHeaps.RecordHeap.constructor | src/simplejsondb/core/data_file_formatter.go:9-31 | A formatted file: the list is the one empty page 3, there are no records, and all blocks but 0 to 3 are free. |
| HeapModel.ChainUnique | src/simplejsondb/core/record_allocator.go:72-129 | A row starts only one chain. |
| HeapModel.StoredUnique | src/simplejsondb/core/record_allocator.go:72-129 | A record has only one content. |
| HeapModel.ChainForward | src/simplejsondb/core/record_allocator.go:72-129 | A chain meets a page at most once and goes on to later pages of the list only. |
| HeapModel.ChainsMeet | src/simplejsondb/core/record_allocator.go:72-129 | Records that share a row are the same record. |
| HeapModel.AppendExact | src/simplejsondb/core/record_allocator.go:131-149 | The list stays linked if and only if the block taken has no left-over pointer to a next page. |
| HeapModel.AppendBack | src/simplejsondb/core/record_allocator.go:131-149 | A new last page changes nothing about which pointers back are lost. |
| HeapModel.UnlinkExact | src/simplejsondb/core/record_allocator.go:181-225 | Taking a page out keeps the list linked if and only if the pointer back of the page is exact. |
| HeapModel.UnlinkOk | src/simplejsondb/core/record_allocator.go:207-218 | A page without rows, passed by and cleared, leaves the list and the chains of all others sound, and no other pointer back is lost. |
| HeapModel.PutOk | src/simplejsondb/core/record_allocator.go:84-85 | A row put on a page keeps list and chains sound. |
| HeapModel.ChainOk | src/simplejsondb/core/record_allocator.go:117 | Chaining a row to a head on a later page keeps list and chains sound. |
| HeapModel.WithoutOk | src/simplejsondb/core/record_allocator.go:164 | Taking the row away that led to a missing one keeps the rest sound. |
| HeapModel.ChainExists | src/simplejsondb/core/record_loader.go:21-54 | From every row of a sound heap a chain can be followed to its end. |
| HeapModel.ChainFrame | src/simplejsondb/core/record_loader.go:21-54 | A record whose rows have not changed loads as before. |
| HeapWrites.FilledUp | src/simplejsondb/core/record_allocator.go:110-113 | A page that takes as much as it has room for has no room left. |
| HeapWrites.WrittenNext | src/simplejsondb/core/record_allocator.go:110-127 | One more piece and one more link, and the rows written so far read back as the data written so far. |
| HeapWrites.WrittenHead | src/simplejsondb/core/record_allocator.go:72-129 | Nothing leads to the first row of a new record. |
| HeapWrites.EndRoomPut | src/simplejsondb/core/record_allocator.go:72-129 | A piece takes from the room for new records at most its data and one header, and its data alone where it fills the page. |
| HeapWrites.EndRoomKept | src/simplejsondb/core/record_allocator.go:131-149 | Taking a block when the last page is full leaves the room for new records as it is. |
| HeapWrites.RoomKept | src/simplejsondb/core/record_allocator.go:131-149 | Taking a new block changes nothing about the room there is. |
| HeapWrites.PieceDone | src/simplejsondb/core/record_allocator.go:110-127 | What one more piece does to list, chains, free blocks and the record under way. |
| HeapRemovals.PageGone | src/simplejsondb/core/record_allocator.go:181-225 | An emptied page other than the last leaves the list, with exact links on both sides, and its block is free. |
| HeapRemovals.FreedBlank | src/simplejsondb/core/record_allocator.go:216 | A freed page is blank if and only if clearing also drops its pointer to the next page. |
| HeapRemovals.RowEnd | src/simplejsondb/core/record_allocator.go:151-179 | A removed row never makes the room for new records smaller. |
| HeapRemovals.LeavesIs | src/simplejsondb/core/record_allocator.go:164-172 | The pages that leave the list with a record are those that held its rows and no others, but never the last page. |
| HeapRemovals.PageEnd | src/simplejsondb/core/record_allocator.go:181-225 | Neither does a page given back. |
| HeapRemovals.RowRoom | src/simplejsondb/core/record_allocator.go:151-179 | A removed row gives at least its room back. |
| HeapRemovals.PageRoom | src/simplejsondb/core/record_allocator.go:181-225 | A page given back is worth no less than it was in the list. |
| HeapRemovals.OtherKept | src/simplejsondb/core/record_allocator.go:151-179 | When the rows of one record change or go, every other record is stored as before. |
| HeapRemovals.NothingLeaves | src/simplejsondb/core/record_allocator.go:168-172 | When every later row shares its page with a row of another record, no page is freed. |
| HeapRemovals.SoftBack | src/simplejsondb/core/record_allocator.go:239 | Soft removal loses exactly one pointer back, the one of its page, if the row is the first of a page that is not the first of the list, and none otherwise. |
| HeapRemovals.SoftRoom | src/simplejsondb/core/record_allocator.go:244 | Soft removal changes the room of the heap by exactly what it changes on its page. |
| HeapRemovals.NoneLeft | src/simplejsondb/core/record_allocator.go:234-243 | After the other rows have gone no row behind the first has the id of the record. |
| HeapRecords.AddDone | src/simplejsondb/core/record_allocator.go:26-70 | The map of records after an insertion: the old one and the new record. |
| HeapRecords.UpdateDone | src/simplejsondb/core/record_allocator.go:227-250 | The map of records after an update: the old one with the new data; the rows of the record have been replaced and no others. |
| HeapRecords.ShorterRecords | src/simplejsondb/core/record_allocator.go:151-179 | The map of records after the rows of one record have gone: all others are there as before. |
| HeapRecords.WrittenHeads | src/simplejsondb/core/record_allocator.go:72-129 | Writing a record makes its first row the start of a record, and no other row. |
| HeapRecords.ShorterHeads | src/simplejsondb/core/record_allocator.go:151-179 | Removing a record makes no inner row the start of a record. |
| HeapRecords.RecordsAre | src/simplejsondb/core/record_allocator.go:26-250 | A map that gives every starting row what is stored there is the map of records. |
| DataBuffers.Run | src/simplejsondb/dbio/data_buffer.go:49-113 | Over a file that may fail at any call, with any number of frames, every look shows what the changes before it have left, failed operations change nothing, as many operations fail as calls of the file did, and after a flush that has not failed the file holds it all. |
| DataBuffers.Step | src/simplejsondb/dbio/data_buffer.go:49-113 | One operation of a client that marks what it writes refines the same operation on the disk it sees; it fails exactly when a call of the file did. |
| DataBuffers.Victim | src/simplejsondb/dbio/data_buffer.go:115-134 | The position of the victim: all ids in front of it are referenced and it is not; where all are, it is the head. |
| DataBuffers.Turned | src/simplejsondb/dbio/data_buffer.go:143 | The queue after an eviction, by positions: ids behind the victim come first in their old order, and the ids passed over come after all of those, in theirs. |
| DataBuffers.SecondChance | src/simplejsondb/dbio/data_buffer.go:115-146 | An id passed over in one eviction is not the victim of the next while an unreferenced id that stood behind the victim is still resident. |
| DataBuffers.WriteUnmarked | src/simplejsondb/dbio/data_buffer.go:49-87 | A clean block that is written and not marked, whatever is fetched after it: the file keeps what it had, and once the block has been evicted it reads as the file does. |
| DataBuffers.LastStays | src/simplejsondb/dbio/data_buffer.go:62-86 | The block fetched last, in place of another one, is not the next to go. |
| DataBuffers.SparedIs | src/simplejsondb/dbio/data_buffer.go:115-134 | The number of ids passed over is the number of referenced ids at the front of the queue. |
| DataBuffers.TurnedIds | src/simplejsondb/dbio/data_buffer.go:143 | The queue after an eviction holds the same ids but the victim, each once. |
| DataBuffers.Evicted | src/simplejsondb/dbio/data_buffer.go:139-143 | Resident ids and frames in use stay in one-to-one correspondence when a block goes. |
| DataBuffers.Loaded | src/simplejsondb/dbio/data_buffer.go:81-84 | They stay so when a block comes. |
| DataBuffers.Enough | src/simplejsondb/dbio/data_buffer.go:65-72 | No more frames are in use than there are ids in the queue. |
| DataBuffers.Overwrite | src/simplejsondb/dbio/data_buffer.go:89-98 | A write to a block just fetched, marked at once, changes that block for clients and no other. |
| DataBuffers.DataBuffer.FetchBlock | src/simplejsondb/dbio/data_buffer.go:49-87 | The block as clients see it, or an error, exactly when a call of the file failed; all blocks stay as they are seen, but for an evicted one that was written and not marked, of which only the file remains. Queue, resident ids and reference bits change as second chance says. The dirty mark of every block that stays resident is as it was, a block just loaded has none, and no block of the file changes but the evicted one, if it was dirty; the same on an error. |
| DataBuffers.DataBuffer.EvictFrame | src/simplejsondb/dbio/data_buffer.go:115-146 | The victim is the first unreferenced id in queue order, or the head; a dirty one is written first, and exactly if that fails nothing is evicted; other frames keep their blocks and marks, and no other block of the file changes. |
| DataBuffers.DataBuffer.Sweep | src/simplejsondb/dbio/data_buffer.go:119-134 | Ends within size + 1 probes and clears exactly the reference bits in front of the victim. |
| DataBuffers.DataBuffer.BitsLeft | src/simplejsondb/dbio/data_buffer.go:119-134 | An id keeps its reference bit if and only if an unreferenced id stands in front of it. |
| DataBuffers.DataBuffer.SaveOne | src/simplejsondb/dbio/data_buffer.go:100-113 | One round of the loop: a dirty block is written and loses its mark, or the write fails and it keeps it. |
| DataBuffers.DataBuffer.Sync | src/simplejsondb/dbio/data_buffer.go:100-113 | Clients see what they saw before; after success the file is what they see and no resident block is dirty, and only a failed write is an error; marks are only taken away, from blocks that the file holds now, and only blocks that were dirty change in the file. |
| DataBuffers.DataBuffer.MarkAsDirty | src/simplejsondb/dbio/data_buffer.go:89-98 | Marks a resident block and no other; a block that is not resident is a panic (false). |
| DataBuffers.DataBuffer.FreeFrame | src/simplejsondb/dbio/data_buffer.go:67-72 | Below its size the buffer always has a frame not in use, and the loop finds the first. |
| DataBuffers.DataBuffer.SomeFree | src/simplejsondb/dbio/data_buffer.go:67-72 | There is such a frame. |
| DataBuffers.DataBuffer.LoadInto | src/simplejsondb/dbio/data_buffer.go:75-86 | The block becomes resident in the frame, unmarked, or, exactly when reading fails, nothing changes for clients. |
| DataBuffers.DataBuffer.WriteBack | src/simplejsondb/dbio/data_buffer.go:136-140 | Writing one dirty block changes nothing for clients, even when it fails half-way; it fails exactly when the file does. |
| DataBuffers.DataBuffer.Discard | src/simplejsondb/dbio/data_buffer.go:139-143 | Of a block that gives up its frame the file remains. |
| DataBuffers.DataBuffer.constructor | src/simplejsondb/dbio/data_buffer.go:29-47 | No block is resident, and clients see the file. |
| PackedRuns.Run | src/simplejsondb/core/uint32_index_node_adapter.go:205-447 | Any run of node operations, keys dropped from branches at either end only, brings list form and bytes to the node that a reference definition of each operation gives (`NodeAfter`), and both hand back the same entries and keys, those that the reference gives. |
| PackedRuns.InBoth | src/simplejsondb/core/uint32_index_node_adapter.go:205-447 | One operation does to the list of entries and to the bytes what the reference says, and both hand back the same. |
| PackedNodes.MostThatFit | src/simplejsondb/simple_json_db.go:14-15 | 510 leaf entries and 680 branch keys with their last child are exactly the most that fit 4096 bytes. |
| PackedNodes.DeletesAgree | src/simplejsondb/core/uint32_index_node_adapter.go:341-360 | Deleting a key from a branch in packed form agrees with the list form if and only if it is the first or the last key, or the children on both its sides are the same. |
| PackedNodes.LeafRoundTrip | src/simplejsondb/core/uint32_index_node_adapter.go:309-317 | An entry is read back as it was written. |
| PackedNodes.LeafLayout | src/simplejsondb/core/uint32_index_node_adapter.go:13-31 | Where in the bytes of a leaf its type, number of keys, links and entries stand, most significant byte first. |
| PackedNodes.BranchLayout | src/simplejsondb/core/uint32_index_node_adapter.go:13-31 | The same for a branch, whose entries share the child between them. |
| PackedNodes.LeafPutIn | src/simplejsondb/core/uint32_index_node_adapter.go:227-249 | The shifted and written bytes stand for the entries with the new one at its position. |
| PackedNodes.LeafDeleted | src/simplejsondb/core/uint32_index_node_adapter.go:264-279 | Closing the gap of eight bytes drops exactly one entry. |
| PackedNodes.LeafCut | src/simplejsondb/core/uint32_index_node_adapter.go:281-297 | A smaller number of keys stands for the first entries. |
| PackedNodes.BranchPutIn | src/simplejsondb/core/uint32_index_node_adapter.go:412-432 | The shifted and written bytes stand for the keys and children with the new key and its right child. |
| PackedNodes.BranchPutFirst | src/simplejsondb/core/uint32_index_node_adapter.go:434-447 | The same for a key and a left child at the front. |
| PackedNodes.BranchDeleted | src/simplejsondb/core/uint32_index_node_adapter.go:341-360 | Closing the gap of six bytes drops a key and the child on its left. |
| PackedNodes.BranchShifted | src/simplejsondb/core/uint32_index_node_adapter.go:393-399 | Closing the gap from the first key on drops the first key and the child on its right. |
| PackedNodes.BranchReplaced | src/simplejsondb/core/uint32_index_node_adapter.go:362-373 | Four bytes change exactly one key. |
| PackedNodes.Relinked | src/simplejsondb/core/uint32_index_node_adapter.go:205-225 | Parent and sibling ids change nothing about the entries. |
| PackedNodes.IndexNode.LeafInsertAt | src/simplejsondb/core/uint32_index_node_adapter.go:227-249 | As for the list of entries; position -1 means the front. |
| PackedNodes.IndexNode.LeafDeleteAt | src/simplejsondb/core/uint32_index_node_adapter.go:264-279 | As for the list of entries; a position out of range panics and changes nothing. |
| PackedNodes.IndexNode.LeafDeleteFrom | src/simplejsondb/core/uint32_index_node_adapter.go:281-297 | As for the list of entries. |
| PackedNodes.IndexNode.LeafAll | src/simplejsondb/core/uint32_index_node_adapter.go:299-307 | The entries in order. |
| PackedNodes.IndexNode.BranchInsertAt | src/simplejsondb/core/uint32_index_node_adapter.go:412-432 | As for the list of entries. |
| PackedNodes.IndexNode.BranchUnshift | src/simplejsondb/core/uint32_index_node_adapter.go:434-447 | As for the list of entries. |
| PackedNodes.IndexNode.BranchShift | src/simplejsondb/core/uint32_index_node_adapter.go:393-399 | As for the list of entries; the block is not marked. |
| PackedNodes.IndexNode.BranchDeleteAt | src/simplejsondb/core/uint32_index_node_adapter.go:341-360 | The last key goes with its right child, any other with its left child; a position out of range panics; the block is not marked. |
| PackedNodes.IndexNode.BranchDeleteFrom | src/simplejsondb/core/uint32_index_node_adapter.go:375-391 | As for the list of entries. |
| PackedNodes.IndexNode.BranchReplaceKeyAt | src/simplejsondb/core/uint32_index_node_adapter.go:362-373 | As for the list of entries; a position out of range panics; the block is not marked. |
| PackedNodes.IndexNode.BranchAll | src/simplejsondb/core/uint32_index_node_adapter.go:401-410 | The entries in order. |
| PackedNodes.IndexNode.EntryAt | src/simplejsondb/core/uint32_index_node_adapter.go:324-331 | The entry at a position, or a panic out of range. |
| PackedNodes.IndexNode.CreateLeaf | src/simplejsondb/core/uint32_index_node_adapter.go:115-136 | An empty leaf without parent and siblings, whatever bytes the block held. |
| PackedNodes.IndexNode.CreateBranch | src/simplejsondb/core/uint32_index_node_adapter.go:157-173 | A branch with one key and two children, whatever bytes the block held. |
| PackedNodes.IndexNode.SetParentID | src/simplejsondb/core/uint32_index_node_adapter.go:205-209 | Changes the parent id only, and marks the block. |
| PackedNodes.IndexNode.SetLeftSiblingID | src/simplejsondb/core/uint32_index_node_adapter.go:215-219 | Changes the left link only, and marks the block. |
| PackedNodes.IndexNode.SetRightSiblingID | src/simplejsondb/core/uint32_index_node_adapter.go:221-225 | Changes the right link only, and marks the block. |
| DataBlocks.BigEndian | src/simplejsondb/dbio/data_block.go:16-22 | Numbers are read most significant byte first. |
| DataBlocks.Get16Splice | src/simplejsondb/dbio/data_block.go:16-47 | A number of 16 bits is read back as it was written. |
| DataBlocks.Get32Splice | src/simplejsondb/dbio/data_block.go:20-47 | A number of 32 bits is read back as it was written. |
| DataBlocks.DataBlock.WriteBytes | src/simplejsondb/dbio/data_block.go:32-37 | The bytes are written over the block and nothing else changes. |
| DataBlocks.DataBlock.Unshift | src/simplejsondb/dbio/data_block.go:49-54 | The loop from the end moves everything behind a position up and loses nothing but the last bytes. |
| DataBlocks.DataBlock.CopyDown | src/simplejsondb/core/record_block.go:344-347 | Copying first byte first moves a row down even where source and destination overlap. |
| DatabaseRuns.Run | src/simplejsondb/simple_json_db.go:62-86 | In the model, with all four repairs and blocks that keep what is written: any run of insertions, deletions and look-ups over a clean database answers as a map from ids to data does and leaves the database clean and holding that map, as long as there is room for the inserted data with 12 bytes for each record and for the nodes of the index; no panic is reached. |
| DatabaseRuns.Step | src/simplejsondb/simple_json_db.go:62-86 | One request of any kind refines the same request on the map, reply included, wherever the database is ready for it; an insertion takes no more of the budget than its data and one header; what pointers back may be lost by it. |
| DatabaseRuns.FromFormatted | src/simplejsondb/simple_json_db.go:44-53 | From a formatted file on, with all repairs, such a run goes through if its data, 12 bytes for each record, and 4076 bytes for each of 2 blocks and of 2 more for every 255 insertions come to at most 29208616 bytes. |
| Databases.Database.Insert | src/simplejsondb/simple_json_db.go:62-69 | The database, seen as one map from ids to data, gains the record under its id; a known id is an error and changes nothing; each new node of the index takes a block of its own from the map of free blocks. |
| Databases.Database.Update | src/simplejsondb/simple_json_db.go:71-78 | The map gets the new data under the id; an unknown id is an error and changes nothing; the index and its blocks stay, and a clean database stays clean if and only if the update spoils no pointer back. |
| Databases.Database.Delete | src/simplejsondb/simple_json_db.go:80-82 | The map loses exactly the id; an unknown id is an error and changes nothing; the call panics if and only if the index stalls at the id, and loses a child of the index if and only if it strays at it; the blocks of freed nodes are free again, and the database is as it should be where they are cleared or there are none; in a clean database nothing goes wrong. |
| Databases.Database.Find | src/simplejsondb/simple_json_db.go:84-86 | Gives the data under the id, put together from all its rows, or an error if there is none. |
| Databases.Database.Search | src/simplejsondb/simple_json_db.go:88-90 | Gives exactly the records that match, each once, by rising ids. |
| Databases.Database.constructor | src/simplejsondb/simple_json_db.go:44-53 | A new database is empty, and its budget is that of 7166 blank pages. |
| Databases.Database.CleanRemovable | src/simplejsondb/simple_json_db.go:80-82 | In a clean database every record can be removed. |
| Databases.Database.TakeBlocks | src/simplejsondb/core/uint32_index_node_adapter.go:115-140 | Every new node gets a free block of its own, and none that is a page; what the database holds stays, and so does its budget. |
| Databases.Database.GiveBlocks | src/simplejsondb/core/uint32_index_node_adapter.go:103-108 | The blocks of freed nodes, and no others, are free again; what the database holds and its budget stay, where they are cleared. |
| RecordHeaps.RecordHeap.Lend | src/simplejsondb/core/uint32_index_node_adapter.go:128-140 | The least free block goes to the index, which may write anything to it: records, list and pointers stay, and the room for new records shrinks by one page. |
| RecordHeaps.RecordHeap.TakeBack | src/simplejsondb/core/uint32_index_node_adapter.go:103-108 | A block of the index is free again; the heap is as it should be if and only if the block is cleared or what was left in it happens to be a page, and blank where it has to be. |
| HeapRecords.OffList | src/simplejsondb/core/uint32_index_node_adapter.go:103-140 | What is in a block outside the list matters neither for the list nor for the records. |
| HeapRecords.LentState | src/simplejsondb/core/uint32_index_node_adapter.go:128-140 | A block lent leaves the heap sound, whatever is written to it. |
| HeapRecords.ReturnedState | src/simplejsondb/core/uint32_index_node_adapter.go:103-108 | A block given back leaves the heap sound if and only if it looks like a free block. |
| HeapWrites.FreeBlock | src/simplejsondb/core/data_blocks_map.go:24-43 | With more room than one page has there is a block to hand out. |
| HeapOwners.IndexOff | src/simplejsondb/core/uint32_index_node_adapter.go:103-140 | Writing to a block outside the list keeps the correspondence of ids and records. |
| IndexedHeaps.IndexedHeap.Insert | src/simplejsondb/actions/insert.go:9-25 | Index and heap together gain the record; the index goes on leading to exactly the first rows of all records; no more room is taken than the data and one header, and no pointer back is lost. |
| IndexedHeaps.IndexedHeap.Update | src/simplejsondb/actions/update.go:8-20 | The record is rewritten in its place and the index stays; the only pointer back that may be lost is the one of its page. |
| IndexedHeaps.IndexedHeap.Delete | src/simplejsondb/actions/delete.go:8-20 | Index and heap together lose exactly the id, or the index panics or loses a child exactly when it stalls or strays at the id; no room and no pointer back is lost. |
| IndexedHeaps.IndexedHeap.Find | src/simplejsondb/actions/find.go:8-15 | Looks up the row in the index and gives the data put together from all rows of its record. |
| IndexedHeaps.IndexedHeap.Search | src/simplejsondb/actions/search.go:8-32 | Gives exactly the records that match, each once, by rising ids; the panics are not reached. |
| IndexedHeaps.IndexedHeap.CleanRemovable | src/simplejsondb/actions/delete.go:8-20 | Where no pointer back is lost every record can be removed. |
| IndexedHeaps.IndexedHeap.CleanReplaceable | src/simplejsondb/actions/update.go:8-20 | With nothing left behind and ids below 2^16 a record can be rewritten if and only if the new data fits in. |
| IndexedHeaps.IndexedHeap.NodesFit | src/simplejsondb/simple_json_db.go:14-15 | The index takes at most one node, and two for every 255 ids. |
| HeapOwners.OwnerOf | src/simplejsondb/core/record_loader.go:21-54 | Every row belongs to a record: going back along the chain leads to a row that starts one, and from there the chain comes through the row. |
| HeapOwners.OwnRows | src/simplejsondb/core/record_allocator.go:227-250 | Where the index leads to the records by their ids, all rows with the id of a record are rows of that record. |
| HeapOwners.NewId | src/simplejsondb/actions/insert.go:9-25 | An id that is not in the index is the id of no row, on any page. |
| HeapOwners.RowIsSmall | src/simplejsondb/core/record_block.go:191-193 | The id of every row is in the index, so where all those are small soft removal spares the row in front. |
| HeapOwners.IndexGrown | src/simplejsondb/actions/insert.go:14-24 | Entering a new record keeps index and records in one-to-one correspondence by id. |
| HeapOwners.IndexShrunk | src/simplejsondb/actions/delete.go:9-19 | Removing a record and its entry keeps the correspondence. |
| HeapOwners.IndexKept | src/simplejsondb/actions/update.go:9-19 | Rewriting a record in its place keeps the correspondence without touching the index. |

## Left out

- Node ids of the tree are unbounded; the wrap-around of 16-bit ids after 65535 allocations of the in-memory form is not modelled.
- Capacities of at least 4 are required of the tree: with smaller ones src/bplustree/bplus_tree.go:278 and
  src/bplustree/in_memory_adapter.go:273 read entries of empty nodes.
- Node handles of the tree are ids; the map holds values, so two handles to one node are not told apart from one.
- BPlusTrees.BPlusTree.All: asks for a root, because the original loads a first leaf that is not there before the first insertion.
- BTreeStuck.StuckDelete: proves what the store is and that the delete gets stuck in it; that the named insertions and the delete lead to
  just this store is read off the code, not proved.
- RecordBlocks.RecordBlock.Add: asks for non-empty data, an id that is not 0 and not on the page, and enough free space, as the
  allocator provides; rows without data would tie in the order of positions, and id 0 means a free header.
- RecordBlocks.RecordBlock.SoftRemove: of a slot that is free already it says which rows are then on the page, not whether the page is still as it should be.
- RecordBlocks.RecordBlock.SortByStart: the order among headers that start at the same place is left open, as the original's sort is not stable.
- The product of a 16-bit local id and 12 (src/simplejsondb/core/record_block.go:120) does not wrap around on a page that is as it should be; the model uses integers.
- `IDs()` of a page, marked as temporary in the program.
- RecordHeaps.RecordHeap.Add: asks for enough room on the last page and the free blocks (`Room`), blank free blocks, and that the last page has no row of the
  same id; the original takes block 0 for a page when no block is free. The second write of the same pointer to the next page
  (src/simplejsondb/core/record_allocator.go:57) is left out, as it changes nothing.
- RecordHeaps.RecordHeap.AllocateNewBlock: asks for a free block that is blank, as `Add` does.
- RecordHeaps.RecordHeap.Remove: asks for the first row of a record, in place of any row, and that pages which may be emptied point back exactly;
  any other page in the middle is taken for the first of the list (`UnlinkExact`).
- RecordHeaps.RecordHeap.RemoveChain: asks the same of the pages it may empty.
- RecordHeaps.RecordHeap.Update: asks that pages which may be emptied point back exactly, for blank free blocks that stay so, a neighbouring id below 2^16,
  enough room and some of it on the first page after the soft removal, and that all rows with the id of the record belong to it; an error of the inner
  removal, which the original ignores, cannot happen then.
- RecordHeaps.RecordHeap.Retract: asks the same.
- RecordHeaps.RecordHeap.AllocateRecord: asks for enough room from the starting page on and for blank free blocks, as `Add` does.
- RecordHeaps.RecordHeap.FindSpace: asks the same.
- RecordHeaps.RecordHeap.RemoveFromList: asks that an emptied page other than the last one points back exactly.
- Databases.Database.Insert: asks for an id that is not 0, for data that is not empty, which compacting JSON never gives, for blank free blocks, and for enough
  room for the data and the nodes of the index (`Insertable`); the original goes on with block 0 when no block is free.
- IndexedHeaps.IndexedHeap.Insert: asks the same, but for the nodes of the index.
- Databases.Database.Update: asks what the heap asks, but for the rows of the id, which the index accounts for.
- IndexedHeaps.IndexedHeap.Update: asks the same.
- Databases.Database.Delete: promises nothing about the database after a panic of the index or a lost child, when the record has gone and its entry is half
  removed, nor after freed nodes that are not cleared.
- Databases.Database.TakeBlocks: gives new nodes their blocks when the tree is done with an insertion, in the order in which the nodes were made; the
  original takes each block when it makes the node. An insertion frees no node, and the tree does not touch the map of free blocks otherwise.
- DatabaseRuns.Run: without updates, which `Step` covers one at a time: whether an update has room on its first page, and whether its row is the first of its
  page, depends on where the records lie (`Replaceable`, `SpoiltBy`).
- Nodes of the tree have names that are not used again, and a freed node is gone; in the program the name of a node is its block, and a freed node can still be
  read. With exact left links no link leads to a freed node (`NoDeadLinks`), so this makes no difference; without the relinking repaired the program may find
  what is left of a node where the model panics.
- The nodes of the index are lists of entries in the tree; that packed bytes do the same, one node operation at a time, is `PackedRuns`. What the bytes of a
  block are while the index has it is left open (`Scribble`); that the heap does not write to such a block is not stated.
- BPlusTrees.BPlusTree.Delete: stops where a child is lost; the original goes on with the broken tree.
- The database is about blocks that keep what is written to them. The program goes through the buffer, where a block that is written and not marked is lost when
  it is evicted.
- Databases.Database.Search: a match is any test of the data; parsing the JSON is not modelled.
- RecordHeaps.RecordHeap.Load: gives the data without the id that the caller hands in.
- The heap works on a plain array of blocks; the program works through the buffer, and returned blocks share the bytes of a frame. Handles kept across an
  eviction are not modelled.
- Several writers of the index and the allocator never mark their block as dirty; the buffer is proved for clients that do.
- DataBuffers.DataFile.ReadBlock: reads a whole block or fails; short reads without an error are not modelled.
- File access, seeking, truncation and closing are a sequence of 65536 blocks with calls that may fail.
- The control block is two numbers, the first block of the list and its last one; its other fields and their bytes are left out.
- SetRoot, Init, LoadRoot and Free of the packed adapter, which go to the control block and the block map.
- `findMaximum`, which nothing calls.
- JSON parsing and compaction, search by content, the actions, the command line, logging and the error texts.
