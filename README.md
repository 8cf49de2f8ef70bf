# Advent of Code 2024 solutions and their support library, modelled in Dafny

The repository solves Advent of Code 2024 puzzles in C++ on top of a small header library, `aoclib`. This project models, in Dafny:

- the library's containers and helpers:
  - `LRUCache` (lru-cache.hpp), a fixed-capacity cache built on an array of doubly linked nodes, a free list and a key-to-slot map;
  - `Grid` with its row-major and column iterators (grid.hpp);
  - `PrioQueue` (prio-queue.hpp), a priority queue built on a priority multimap and an element map;
  - the text helpers of aocio.hpp: tokenising, trimming, empty-line removal and hexadecimal parsing;
  - the `Vec2` arithmetic of vec.hpp;
- the puzzle solutions of days 1 to 12 and 14 to 17.

Each stateful C++ class is a Dafny `class` whose methods are proved against a pure specification of its state:

- `LruCache.LRUCache` against `Contents()`, the entries in recency order;
- `Grids.Grid` against its row-major `data`;
- `PrioQueues.PrioQueue` against a sorted list of (priority, element) pairs;
- `Day11.StoneCache` against a map;
- `Day17.Computer` against the pure machine `Day17.Step`/`Day17.Run`.

Each puzzle's `part_one`/`part_two` is a method. It returns the puzzle's answer or the exception the C++ code would throw, and it is proved equal to a reference function of the input lines, or to satisfy that puzzle's defining property:

- day 10: the count of distinct reachable summits;
- day 12: region price sums over flood-filled regions;
- day 15: the warehouse moves;
- day 16: the least-cost walk through the maze;
- day 17: the three-bit machine's output.

Exceptions are the `Error` values of `Wrappers`: out_of_range, invalid_argument, runtime_error and bad_optional_access.

Files: `wrappers.dfy` (Option, Result, Error), `vec.dfy`, `grid.dfy`, `lines_grid.dfy` (a grid built from text lines), `lru_cache.dfy`, `prio_queue.dfy`, `aocio.dfy`, and `dayNN.dfy` for each puzzle.

## Model

| member | source | states |
|---|---|---|
| `LruCache.AfterInsertShape` | aoclib/lru-cache.hpp:77-167 | One `insert`: a cached key keeps the size and key set; a new key grows the size by one while there is room, and on a full cache replaces exactly the least recently used (last) key; the size never exceeds N, keys stay distinct, and (k, v) is the head entry |
| `LruCache.LookupAfterInsert` | aoclib/lru-cache.hpp:80-86 | After `insert(k, v)` the cache maps k to v, and every other key still cached was cached before and keeps its value |
| `LruCache.TouchKeepsMapping` | aoclib/lru-cache.hpp:174-205 | Re-inserting a cached key with its own value, as `get_copy`/`get_ptr` do, changes only the recency order: same size, same keys, same value for every key |
| `LruCache.EvictionScenario` | aoclib/lru-cache.hpp:122-148 | With N = 2, inserting A, B, A, C evicts B: the cache then holds C then A |
| `LruCache.CachedInsertEntries` | aoclib/lru-cache.hpp:80-119 | Overwriting the value of the node at recency position p and moving it to the front yields exactly the abstract `AfterInsert` of a cached key, with the map unchanged |
| `LruCache.TakenEntries` | aoclib/lru-cache.hpp:122-148 | Taking a slot for a new key leaves the entries as they were while there is room, and drops exactly the last (least recently used) entry when the cache is full |
| `LruCache.FilledEntries` | aoclib/lru-cache.hpp:150-166 | Writing (k, v) into a detached slot and pushing it at the head puts (k, v) in front of the other entries and extends the map by k ↦ slot |
| `LruCache.EntriesKeys` | aoclib/lru-cache.hpp:169-172 | When the map agrees with the nodes, the cached keys are distinct and are exactly the map's keys |
| `LruCache.EntriesLookup` | aoclib/lru-cache.hpp:179-183 | The value stored in the node the map names for k is the abstract value of k |
| `LruCache.FullTail` | aoclib/lru-cache.hpp:123-128 | On a full cache (no free slot) the recency list is non-empty and `tail_idx` is its last slot |
| `LruCache.TailEvicted` | aoclib/lru-cache.hpp:126-141 | Evicting the tail: its key leaves the map, its predecessor (if any) becomes the tail with a null `next`, the rest of the list stays linked and no key or value moves |
| `LruCache.LRUCache.GetFreeIdx` | aoclib/lru-cache.hpp:37-49 | Answers IDX_NULL on an empty free list; otherwise pops and returns the first free slot, leaving the rest of the free list threaded and the nodes untouched |
| `LruCache.LRUCache.ResetFreeList` | aoclib/lru-cache.hpp:51-58 | Size 0, first free slot 0, head and tail IDX_NULL, and every node i linked to i−1 and i+1 (IDX_NULL at the ends), so the free list is 0,1,…,N−1; keys and values are untouched |
| `LruCache.LRUCache.ResetIsValid` | aoclib/lru-cache.hpp:51-58 | The state `reset_free_list` leaves, with an empty map, satisfies the cache invariant and holds no entries |
| `LruCache.LRUCache.constructor` | aoclib/lru-cache.hpp:61-64 | A new cache of capacity N is valid and empty: size 0, empty map, head and tail IDX_NULL, free list 0,1,…,N−1 |
| `LruCache.LRUCache.Clear` | aoclib/lru-cache.hpp:66-70 | `clear()` leaves the same state as construction: valid, no entries, empty map, free list 0,1,…,N−1 |
| `LruCache.LRUCache.Size` | aoclib/lru-cache.hpp:72-75 | `size()` is the number of cached entries and never exceeds N |
| `LruCache.LRUCache.Contains` | aoclib/lru-cache.hpp:169-172 | `contains(k)` holds exactly when k is cached; it changes nothing |
| `LruCache.LRUCache.Insert` | aoclib/lru-cache.hpp:77-167 | Keeps the invariant (lists well formed, slots partitioned, map agrees with nodes, size = occupied count); the new entries are `AfterInsert(old entries, N, k, v)`; a cached key keeps its slot and the slot holds v |
| `LruCache.LRUCache.GetCopy` | aoclib/lru-cache.hpp:174-184 | None exactly when the key is absent, and then nothing changes; otherwise the stored value, and the key moves to the head as by `insert(k, value)` |
| `LruCache.LRUCache.GetPtr` | aoclib/lru-cache.hpp:195-205 | Null exactly when the key is absent (nothing changes); otherwise the slot holding k and its value, with the same recency effect as `get_copy` |
| `LruCache.LRUCache.InsertCached` | aoclib/lru-cache.hpp:80-119 | The cached-key path: overwrites the value, moves the node to the head, leaves the map unchanged, and the entries are `AfterInsert` |
| `LruCache.LRUCache.MoveToHead` | aoclib/lru-cache.hpp:88-118 | Nothing to do when the node is the head; otherwise the recency list becomes the node followed by the other slots in their old order, lists stay well formed, no key or value moves |
| `LruCache.LRUCache.Unlink` | aoclib/lru-cache.hpp:93-109 | Takes a non-head node out of the recency list: the tail moves to its predecessor if it was the tail, and the remaining slots stay linked in order |
| `LruCache.LRUCache.PushHead` | aoclib/lru-cache.hpp:111-117 | Links a detached node in as the new head, in front of the old list, setting the tail too when the list was empty |
| `LruCache.LRUCache.InsertNew` | aoclib/lru-cache.hpp:121-166 | The new-key path keeps the invariant and yields `AfterInsert` (free slot, or the evicted tail's slot) |
| `LruCache.LRUCache.FillSlot` | aoclib/lru-cache.hpp:150-166 | Stores (k, v) in the taken slot, links it as the head and maps k to it: the entries become (k, v) followed by the previous ones |
| `LruCache.LRUCache.PlaceAtHead` | aoclib/lru-cache.hpp:150-165 | Writes key and value into the detached slot and links it at the head; every other key and value stays put |
| `LruCache.LRUCache.TakeSlot` | aoclib/lru-cache.hpp:122-148 | With room, the first free slot (size + 1, map and list unchanged); when full, the tail's slot, with the last slot off the recency list and its key off the map |
| `LruCache.LRUCache.RecycleTail` | aoclib/lru-cache.hpp:123-144 | On a full cache returns the old tail slot, removes it from the recency list and its key from the map, through the free list |
| `LruCache.LRUCache.EvictTail` | aoclib/lru-cache.hpp:124-141 | The eviction half: the tail's key leaves the map, its predecessor becomes the tail, and the tail node's links are cleared |
| `Grids.RowMajor` | aoclib/grid.hpp:330-332 | For an on-grid (x, y), `calc_idx` = x + y·width lies in [0, width·height), and mod/div by width recover x and y |
| `Grids.IndexSplits` | aoclib/grid.hpp:334-341 | Every storage index i of a width-by-height grid (width > 0) is x + y·width for the on-grid x = i mod width, y = i / width |
| `Grids.ConcatLength` | aoclib/grid.hpp:353-360 | Rows of equal width w laid end to end hold w·(number of rows) elements |
| `Grids.ConcatCell` | aoclib/grid.hpp:353-360 | In the rows laid end to end, cell (x, y) sits at storage index x + y·w: the row-major layout |
| `Grids.Grid.constructor` | aoclib/grid.hpp:344 | The default grid is 0 by 0 with no elements |
| `Grids.Grid.Filled` | day-10/day-10.cpp:51 | `Grid(width, height, fill)` gives a width-by-height grid whose every cell holds the fill value |
| `Grids.Grid.IdxToPos` | aoclib/grid.hpp:334-341 | `idx_to_pos(idx)` for a storage index is an on-grid position whose `calc_idx` is idx |
| `Grids.Grid.TryGet` | aoclib/grid.hpp:379-388 | None exactly when the position is off the grid (`pos_on_grid` fails), the cell's element otherwise |
| `Grids.Grid.Get` | aoclib/grid.hpp:390-399 | out_of_range exactly when the position is off the grid; otherwise the same element `try_get` returns (also `at` read through) |
| `Grids.Grid.Set` | aoclib/grid.hpp:401-410 | Off the grid: out_of_range and no change; on the grid: only the cell at `calc_idx` changes, `try_get` there then yields e, and every other position reads as before |
| `Grids.Grid.AppendRow` | aoclib/grid.hpp:370-372 | Pushing a row's elements one by one appends exactly that row to the storage |
| `Grids.Grid.FromRows` | aoclib/grid.hpp:346-361 | No rows give a 0×0 grid; invalid_argument exactly when some row's length differs from the first's; otherwise width = first row's length, height = number of rows, storage = the rows concatenated, and cell (x, y) is rows[y][x] |
| `Grids.Grid.PushRow` | aoclib/grid.hpp:363-377 | A row of another width on a grid with rows is out_of_range and changes nothing; otherwise the row is appended, width fixed and height incremented, and an empty row then reports runtime_error; old cells keep their values, the new row is row height−1 |
| `Grids.Grid.PushRowAsWritten` | aoclib/grid.hpp:363-377 | The width test as written (`width_ != 0`): a grid of empty rows accepts a longer row and then holds fewer cells than width·height |
| `Grids.EmptyRowsThenPushAsWritten` | aoclib/grid.hpp:365-373 | Built from two empty rows, then `push_row("abc")`: the as-written test accepts it, leaving a 3-by-3 grid with 3 cells |
| `Grids.EmptyRowsThenPush` | aoclib/grid.hpp:365-366 | The same calls with the intended test refuse the row with out_of_range and keep the 0-by-2 grid consistent |
| `Grids.Grid.Begin` | aoclib/grid.hpp:473-475 | `begin()` is the cursor at index 0 |
| `Grids.Grid.End` | aoclib/grid.hpp:476-478 | `end()`, built from (width, height−1), is index width·height, one past the last cell, and holds no pointer |
| `Grids.Grid.BeginRow` | aoclib/grid.hpp:505-507 | `begin_row(r)` is index r·width |
| `Grids.Grid.EndRow` | aoclib/grid.hpp:509-511 | `end_row(r)` is index (r+1)·width |
| `Grids.Grid.BeginCol` | aoclib/grid.hpp:488-490 | `begin_col(c)` is row 0 of column c |
| `Grids.Grid.EndCol` | aoclib/grid.hpp:492-494 | `end_col(c)` is row height of column c and holds no pointer, so `end_col − begin_col` = height |
| `Grids.Grid.Find` | aoclib/grid.hpp:529 | `std::find` from index `from`: the first index holding elem, or the end when none does |
| `Grids.Grid.FindElemPositions` | aoclib/grid.hpp:521-541 | Exactly the positions whose element equals elem: each listed one holds it, each cell holding it is listed, in strictly increasing row-major order |
| `Grids.GridIterator.constructor` | aoclib/grid.hpp:170-180 | The cursor for (column, row) stands on index column + row·width, with a pointer exactly when that index is a storage index |
| `Grids.GridIterator.Deref` | aoclib/grid.hpp:182 | `*it` on a cursor with a pointer is the element at its index |
| `Grids.GridIterator.Inc` | aoclib/grid.hpp:186-198 | `++` moves to index + 1; the cursor is dereferenceable exactly when the new index is in [0, width·height) |
| `Grids.GridIterator.Dec` | aoclib/grid.hpp:200-212 | `--` moves to index − 1; dereferenceable exactly when the new index is in range |
| `Grids.GridIterator.AddAssign` | aoclib/grid.hpp:218-230 | `+= n` moves to index + n; dereferenceable exactly when the new index is in range |
| `Grids.GridIterator.SubAssign` | aoclib/grid.hpp:232-234 | `-= n` moves to index − n; dereferenceable exactly when in range |
| `Grids.GridIterator.Plus` | aoclib/grid.hpp:236-252 | `(it + n) − it = n`; the new cursor is dereferenceable exactly when `it[n]` does not throw, and then reads the same element |
| `Grids.GridIterator.Minus` | aoclib/grid.hpp:254-256 | `(it − n) − it = −n` |
| `Grids.GridIterator.Subscript` | aoclib/grid.hpp:258-265 | `it[n]` throws out_of_range exactly when index + n is outside [0, width·height) |
| `Grids.GridIterator.Equal` | aoclib/grid.hpp:289-303 | Equal cursors hold the same pointer; unequal cursors with a pointer hold different pointers (the asserts in `==`/`!=`) |
| `Grids.GridColIterator.constructor` | aoclib/grid.hpp:26-34 | The column cursor for (column, row), with a pointer exactly when that position is on the grid |
| `Grids.GridColIterator.Deref` | aoclib/grid.hpp:36 | `*it` is the element `try_get(col, row)` finds |
| `Grids.GridColIterator.Repoint` | aoclib/grid.hpp:45 | Pointing at (col, row) through `at` succeeds exactly on the grid and otherwise is out_of_range, leaving the pointer unchanged |
| `Grids.GridColIterator.Inc` | aoclib/grid.hpp:40-51 | `++` moves to row + 1; dereferenceable exactly when that row is in [0, height); `at` throws only when the new row is in range but the column is off the grid |
| `Grids.GridColIterator.Dec` | aoclib/grid.hpp:53-64 | `--` moves to row − 1, symmetric to `++` |
| `Grids.GridColIterator.AddAssign` | aoclib/grid.hpp:70-79 | `+= n` moves to row + n; dereferenceable exactly when that row is in range |
| `Grids.GridColIterator.SubAssign` | aoclib/grid.hpp:81-83 | `-= n` moves to row − n |
| `Grids.GridColIterator.Plus` | aoclib/grid.hpp:85-94 | `(it + n) − it = n` on the same column, dereferenceable exactly when the row is on the grid |
| `Grids.GridColIterator.Minus` | aoclib/grid.hpp:96-98 | `(it − n) − it = −n` |
| `Grids.GridColIterator.Subscript` | aoclib/grid.hpp:100-107 | `it[n]` reads row `row − n` (the opposite sign to the whole-grid cursor) and throws out_of_range exactly off the grid |
| `Grids.GridColIterator.Equal` | aoclib/grid.hpp:132-138 | Cursors on equal rows hold the same pointer |
| `LinesGrid.FromLines` | aoclib/grid.hpp:346-361 | A character grid from puzzle lines: invalid_argument exactly for ragged lines, otherwise `try_get` answers the character of the lines at every position |
| `LinesGrid.ReadCell` | aoclib/grid.hpp:379-388 | What `try_get` finds at a position is the character of the lines there, or None off them |
| `PrioQueues.UpperBound` | aoclib/prio-queue.hpp:23 | Where `std::multimap::insert` places an entry of priority p: after every entry of priority ≤ p and before every greater one |
| `PrioQueues.InsertedSorted` | aoclib/prio-queue.hpp:23 | Inserting at the upper bound keeps the multimap ordered by priority and adds exactly the one entry (as a multiset) |
| `PrioQueues.InsertedElems` | aoclib/prio-queue.hpp:18-26 | Inserting (p, e) adds e to the queued elements, and keeps the elements unique when e was absent |
| `PrioQueues.RemovedShape` | aoclib/prio-queue.hpp:36 | Erasing one entry keeps the multimap ordered, keeps elements unique, and removes exactly that entry |
| `PrioQueues.RemovedElems` | aoclib/prio-queue.hpp:35-36 | Erasing an entry of a queue with unique elements drops exactly its element |
| `PrioQueues.ElemsCount` | aoclib/prio-queue.hpp:80-82 | With unique elements there are as many distinct elements as entries, so `size()` counts both containers |
| `PrioQueues.InsertAgree` | aoclib/prio-queue.hpp:23-25 | Inserting an absent element into both containers keeps them in step |
| `PrioQueues.RemoveAgree` | aoclib/prio-queue.hpp:33-36 | Erasing an element's entry and its key keeps the two containers in step |
| `PrioQueues.EraseFirstAgree` | aoclib/prio-queue.hpp:51-58 | Erasing the first entry keeps the containers in step, and its priority is at most every remaining priority |
| `PrioQueues.FirstIsLeast` | aoclib/prio-queue.hpp:51 | The first entry of the multimap has the least priority of all queued elements |
| `PrioQueues.PrioQueue.constructor` | aoclib/prio-queue.hpp:14-15 | A new queue has both containers empty |
| `PrioQueues.PrioQueue.Contains` | aoclib/prio-queue.hpp:76-78 | `contains(elem)` holds exactly when some multimap entry holds elem |
| `PrioQueues.PrioQueue.Size` | aoclib/prio-queue.hpp:80-82 | `size()` (the element map's size) equals the number of multimap entries |
| `PrioQueues.PrioQueue.Empty` | aoclib/prio-queue.hpp:84-91 | `empty()` holds exactly when `size()` is 0, and then the element map is empty too |
| `PrioQueues.PrioQueue.Locate` | aoclib/prio-queue.hpp:33-34 | The element map's iterator designates the multimap entry that holds the element |
| `PrioQueues.PrioQueue.Insert` | aoclib/prio-queue.hpp:18-26 | A queued element gives invalid_argument and changes nothing; otherwise (priority, elem) goes in at its upper bound, the map gains elem ↦ priority, size grows by 1 and `contains(elem)` holds |
| `PrioQueues.PrioQueue.UpdatePrio` | aoclib/prio-queue.hpp:28-38 | An absent element gives out_of_range and changes nothing; otherwise the element's entry is erased and the element is inserted again at the upper bound of its new priority, after every entry of equal or lower priority, with the set of elements and the size unchanged |
| `PrioQueues.PrioQueue.InsertOrUpdate` | aoclib/prio-queue.hpp:40-47 | Never fails; a queued element is erased and inserted again at the upper bound of the new priority (size unchanged), an absent one is inserted there (size + 1); every other element keeps its priority |
| `PrioQueues.PrioQueue.EraseBegin` | aoclib/prio-queue.hpp:56-58 | Erases the first entry and its element; its priority is at most every remaining priority, and size drops by 1 |
| `PrioQueues.PrioQueue.ExtractMin` | aoclib/prio-queue.hpp:49-60 | out_of_range exactly on an empty queue (no change); otherwise returns the first entry's element, whose priority is ≤ every remaining one, removes it, size drops by 1 |
| `PrioQueues.PrioQueue.ExtractMinPrio` | aoclib/prio-queue.hpp:62-74 | As `extract_min`, and also reports the extracted element's priority, the least one |
| `PrioQueues.PrioQueue.ExtractMinPrioAsWritten` | aoclib/prio-queue.hpp:62-74 | As written, the priority is read through `min_elem` after its entry was erased: the entry is no longer in the multimap, so no priority is defined (None) |
| `AocIo.RemoveLeadingEmptyLines` | aoclib/aocio.hpp:34-47 | Removes exactly the longest prefix of lines made only of spaces and tabs (empty lines included); the rest is kept in order and starts with a non-blank, non-empty line |
| `AocIo.RemoveTrailingEmptyLines` | aoclib/aocio.hpp:49-63 | Removes exactly the longest suffix of blank lines; the rest is kept in order and ends with a non-blank line |
| `AocIo.LexShape` | aoclib/aocio.hpp:73-89 | Every token of a line is a non-empty run free of delimiters, or a single preserved delimiter |
| `AocIo.FindFirstOf` | aoclib/aocio.hpp:75-78 | `find_first_of(delims, start)` with npos read as the line's length lies between start and the length |
| `AocIo.FindFirstOfStops` | aoclib/aocio.hpp:75-78 | The search stops at a delimiter, or at the end of the line |
| `AocIo.FindFirstOfSkips` | aoclib/aocio.hpp:75 | The search passes over no delimiter |
| `AocIo.ScanIsLex` | aoclib/aocio.hpp:73-89 | Scanning the line from delimiter to delimiter, as the loop does, yields the tokens of the character-level tokeniser: each non-empty run of non-delimiters, and each preserved delimiter at its place |
| `AocIo.RoundStep` | aoclib/aocio.hpp:74-88 | After one round, the tokens appended so far followed by the tokens still to come are the whole line's tokens; a round that reached the end has appended all of them |
| `AocIo.CheckPreserved` | aoclib/aocio.hpp:67-71 | invalid_argument exactly when some preserved delimiter is not a delimiter |
| `AocIo.TokenRound` | aoclib/aocio.hpp:74-88 | One round of the loop with the intended guard: appends the run up to the next delimiter when it is non-empty, then that delimiter when preserved, keeping the line's tokens |
| `AocIo.TokenRoundAsWritten` | aoclib/aocio.hpp:74-88 | One round as written: reading `line.at(token_end_pos)` fails with out_of_range exactly when there are preserved delimiters and the run reached the end of the line, after the run's token was appended |
| `AocIo.LineTokenise` | aoclib/aocio.hpp:65-90 | invalid_argument (nothing appended) exactly when a preserved delimiter is not in `delims`; otherwise appends exactly the line's tokens, in order |
| `AocIo.LineTokeniseAsWritten` | aoclib/aocio.hpp:65-90 | As written: the same tokens are appended, but with preserved delimiters a line that does not end in a delimiter then throws out_of_range at line 84 |
| `AocIo.EquationLineAsWritten` | aoclib/aocio.hpp:84 | The equation line "190: 10 19" tokenised at ": " with ":" preserved: all four tokens appended, then out_of_range |
| `AocIo.EquationLine` | aoclib/aocio.hpp:73-89 | The same line with the intended guard: the same four tokens and no exception |
| `AocIo.WithoutWhitespaceEmpty` | aoclib/aocio.hpp:92-98 | `str_without_whitespace` leaves nothing exactly of a blank line |
| `AocIo.WithoutWhitespaceMembers` | aoclib/aocio.hpp:92-98 | A character survives `str_without_whitespace` exactly when it occurs in the text and is neither a space nor a tab |
| `AocIo.RemoveWs` | aoclib/aocio.hpp:103 | `std::remove_if` on the buffer moves the kept characters to the front, in order: the prefix up to the new end is the text without spaces and tabs |
| `AocIo.StrRemoveWhitespace` | aoclib/aocio.hpp:100-105 | `str_remove_whitespace` produces in place the same string as `str_without_whitespace` |
| `AocIo.ParseDigit` | aoclib/aocio.hpp:145-153 | A value exactly for '0'..'9', and then in 0..9 |
| `AocIo.DigitRoundTrip` | aoclib/aocio.hpp:145-153 | `parse_digit` of the character of digit d is d |
| `AocIo.ParseShow` | aoclib/aocio.hpp:125-133 | `parse_num` reads back a decimal number as `std::to_string` writes it, with or without a minus sign |
| `AocIo.ParseTokens` | aoclib/aocio.hpp:125-133 | `parse_num` applied to every token in order; invalid_argument exactly when some token has no number |
| `AocIo.HexDigit` | aoclib/aocio.hpp:186-198 | A value exactly for 0-9, a-f and A-F, and then in 0..15 |
| `AocIo.HexRoundTrip` | aoclib/aocio.hpp:183-201 | Reading back the k lower-case hex digits of n < 16^k gives n |
| `AocIo.HexCoreOf` | aoclib/aocio.hpp:162-181 | Blanks, an optional `#`/`0x` prefix, hex digits and blanks: the digits are what `parse_hex` converts |
| `AocIo.ParseHex` | aoclib/aocio.hpp:155-202 | Empty text gives none; when a blank scan runs off the text `at` throws out_of_range; otherwise the value Σ digit·16^k of the text between the blanks and the prefix, none if a character there is not a hex digit |
| `AocIo.SumHexDigits` | aoclib/aocio.hpp:183-201 | The digit loop from the last character to the first, each worth 16 times the next, is the hex value of the text, none at the first non-hex character |
| `AocIo.HasFlag` | aoclib/aocio.hpp:233-236 | `iostat_has_flag(s, f)` holds exactly when every bit of f is set in s |
| `AocIo.OrSetsFlag` | aoclib/aocio.hpp:224-236 | `iostat_has_flag(a \| b, b)` always holds, and or-ing keeps every flag already set |
| `AocIo.FlagsDistinct` | aoclib/aocio.hpp:222-236 | The three flags are distinct bits (none includes another), and UNDEFINED (0) is in every status |
| `AocIo.ParseDigits` | day-09/day-09.cpp:38 | `parse_digit(c).value()` over a line: bad_optional_access exactly when a character is not a digit, otherwise the digits' values in order |
| `Vec.EqualityIsComponentwise` | aoclib/vec.hpp:24 | The defaulted `operator==` holds exactly when both coordinates agree |
| `Vec.AddSubRoundTrip` | aoclib/vec.hpp:14-22 | Subtracting b undoes adding b and the other way round; addition is commutative |
| `Vec.DirToVec2Unit` | aoclib/vec.hpp:40-66 | `dir_to_vec2` maps each direction to a unit step, and different directions to different steps, whichever way up points |
| `Vec.AllDirsVec2` | aoclib/vec.hpp:29-38 | `all_dirs_vec2` returns four steps |
| `Vec.AllDirsOrder` | aoclib/vec.hpp:29-38 | The four steps are those of Right, Left, Up and Down, in that order, agreeing with `dir_to_vec2` |
| `Vec.AllDirsDistinct` | aoclib/vec.hpp:32-37 | The four steps are pairwise distinct |
| `Vec.AllDirsComplete` | aoclib/vec.hpp:32-37 | A vector is one of the four steps exactly when its Manhattan length is 1 |
| `Vec.DirGetLeftRight` | aoclib/vec.hpp:68-85 | The left and right turns of a direction differ from it and from each other |
| `Vec.TurnRightRotatesClockwise` | aoclib/vec.hpp:68-85 | In screen coordinates (up is y − 1) a right turn rotates the step a quarter turn clockwise |
| `Vec.TurnsInverse` | aoclib/vec.hpp:68-85 | A left turn undoes a right turn and the other way round; four right turns are the identity |
| `Vec.OppositeIsNegated` | aoclib/vec.hpp:40-85 | Two right turns give the opposite direction, whose step is the negated step |
| `Day01.ParseLists` | day-01/day-01.cpp:17-28 | Succeeds exactly when every line holds two numbers; then the two id lists are the lines' first and second numbers, in order; otherwise the error of the first line that fails |
| `Day01.InsertKeeps` | day-01/day-01.cpp:35-36 | Inserting into a sorted list keeps it sorted and adds exactly the element |
| `Day01.SortIsSortedPermutation` | day-01/day-01.cpp:35-36 | The `std::sort` model returns a sorted permutation of its input |
| `Day01.SortedUnique` | day-01/day-01.cpp:35-36 | Two sorted lists with the same elements are equal, so the sorted order does not depend on the sorting algorithm |
| `Day01.SortOrderFree` | day-01/day-01.cpp:35-36 | Lists with the same elements sort to the same list |
| `Day01.PartOneOrderFree` | day-01/day-01.cpp:30-44 | The total distance depends only on the two lists' elements, not on their order |
| `Day01.TotalDistanceZero` | day-01/day-01.cpp:38-43 | The sum of pairwise distances is zero exactly when the lists are equal |
| `Day01.PartOneZeroIff` | day-01/day-01.cpp:30-44 | The part-one answer is zero exactly when both lists hold the same ids with the same counts |
| `Day01.PartOne` | day-01/day-01.cpp:30-44 | Fails exactly when parsing fails; otherwise the sum of distances between the sorted lists of the parsed ids |
| `Day01.CountIds` | day-01/day-01.cpp:51-58 | The count map has exactly the ids of the right list as keys, each mapped to its number of occurrences |
| `Day01.SimilarityScore` | day-01/day-01.cpp:60-64 | The loop computes the similarity sum of each left id times its count on the right |
| `Day01.MatchesCount` | day-01/day-01.cpp:62 | An id's contribution equals the id times its number of occurrences in the right list |
| `Day01.SimilarityIsPairSum` | day-01/day-01.cpp:46-65 | The similarity score equals the sum over all (left, right) pairs of equal ids of the id |
| `Day01.PartTwo` | day-01/day-01.cpp:46-65 | Fails exactly when parsing fails; otherwise the pair-sum similarity of the parsed lists |
| `Day02.ReportIsSafe` | day-02/day-02.cpp:15-38 | invalid_argument exactly for fewer than two levels; otherwise true exactly when every step decreases by 1 to 3, or every step increases by 1 to 3 |
| `Day02.NotSafeAt` | day-02/day-02.cpp:25-34 | A step against the first step's direction, or of size outside 1..3, makes the report unsafe, so the early `return false` is right |
| `Day02.StepsExtend` | day-02/day-02.cpp:30-31 | A valid step extends the prefix of valid steps by one level |
| `Day02.ParseReports` | day-02/day-02.cpp:40-54 | Succeeds exactly when every line has at least two tokens and each is a number; then one report per line, in order |
| `Day02.CountSafeBounds` | day-02/day-02.cpp:61-66 | The number of safe reports is at most the number of reports, and equals it exactly when every report is safe |
| `Day02.PartOne` | day-02/day-02.cpp:56-67 | Fails exactly when a line does not parse; otherwise the number of safe reports among the parsed lines |
| `Day03.Concat` | day-03/day-03.cpp:20 | `std::reduce` with string `+` joins the lines in order: the join of all lines is the join of all but the last, followed by the last |
| `Day03.FindFrom` | day-03/day-03.cpp:27-30 | `find` from i returns the first occurrence at or after i, or none when there is none |
| `Day03.LastAt` | day-03/day-03.cpp:34-35 | `rfind` at p returns the last occurrence starting at or before p, or none when there is none |
| `Day03.ParseOperand` | day-03/day-03.cpp:45-65 | Succeeds exactly when at most three digits are followed by the terminator (',' or ')'); then the operand's value and the position after the terminator; on failure the scan stops inside the instruction without passing an 'm' |
| `Day03.DecimalStep` | day-03/day-03.cpp:57 | `num * 10 + digit` is the decimal value of the digits read so far |
| `Day03.MulEnabled` | day-03/day-03.cpp:32-43 | In part one every instruction counts; in part two exactly those with no `don't()` before them, or whose last `do()` comes after the last `don't()` |
| `Day03.Instruction` | day-03/day-03.cpp:68-81 | From a `mul(` at p, adds the product of its two operands when both parse and it is enabled, and resumes the search after the instruction's text without skipping another `mul(` |
| `Day03.SumSame` | day-03/day-03.cpp:26-30 | Skipping a stretch without `mul(` does not change the sum |
| `Day03.NoInstructionBetween` | day-03/day-03.cpp:45-65 | A stretch with no 'm' holds no `mul(` |
| `Day03.PartOne` | day-03/day-03.cpp:15-85 | The result is the sum, over every `mul(` of the joined input without blanks, of its product when it reads as `mul(a,b)` and is enabled |
| `Day03.ContributionBounds` | day-03/day-03.cpp:78-80 | An instruction contributes at most as much in part two as in part one, and the same when enabled |
| `Day03.PartTwoAtMostPartOne` | day-03/day-03.cpp:87-90 | The part-two sum is at most the part-one sum, and equal to it when the input has no `don't()` |
| `Day03.ReadsInstruction` | day-03/day-03.cpp:45-81 | `mul(2,4)` reads as 8 |
| `Day03.EmptyOperandIsZero` | day-03/day-03.cpp:45-65 | An operand with no digits before its terminator reads as 0, so `mul(,5)` is accepted with value 0 |
| `Day03.ReadsThreeDigits` | day-03/day-03.cpp:45-65 | `mul(123,45)` reads as 5535 |
| `Day03.FourDigitsRejected` | day-03/day-03.cpp:60-62 | A fourth digit rejects the instruction: `mul(1234,5)` reads as nothing |
| `Day03.MalformedRejected` | day-03/day-03.cpp:50-56 | A wrong terminator or a missing parenthesis rejects the instruction |
| `Day04.HitsAll` | day-04/day-04.cpp:28-36 | A direction's counter reaches the number of letters read exactly when every letter of XMAS so far sits at its place in that direction |
| `Day04.XmasScoreBounds` | day-04/day-04.cpp:24-38 | At most eight XMAS words start at a cell, and none unless the cell holds 'X' |
| `Day04.CountDirsBounds` | day-04/day-04.cpp:37 | The directions counted are at most those tried, and none unless the cell holds 'X' |
| `Day04.MatchXmas` | day-04/day-04.cpp:24-38 | `match_xmas` returns the number of the eight directions in which XMAS reads from the cell |
| `Day04.MatchLetter` | day-04/day-04.cpp:29-35 | One letter of XMAS: each direction's counter grows by one exactly when that letter is at its offset in that direction (off-grid positions never match) |
| `Day04.MatchCrossMas` | day-04/day-04.cpp:40-54 | `match_cross_mas` returns 1 exactly when both diagonals through the cell are on the grid and read M and S in either order |
| `Day04.CrossMasCorners` | day-04/day-04.cpp:41-51 | A counted cross has all four corners on the grid, each diagonal holding one M and one S |
| `Day04.RowMatchesAre` | aoclib/grid.hpp:521-541 | The matches of one row are exactly its cells holding the element, left to right |
| `Day04.GridMatchesAre` | aoclib/grid.hpp:521-541 | The matches of the first m rows are exactly their cells holding the element |
| `Day04.GridMatchesSound` | aoclib/grid.hpp:521-541 | Every listed position is on the grid and holds the element |
| `Day04.GridMatchesComplete` | aoclib/grid.hpp:521-541 | Every cell holding the element is listed |
| `Day04.GridMatchesIncreasing` | aoclib/grid.hpp:521-541 | The positions are listed in row-major order |
| `Day04.SameIncreasing` | aoclib/grid.hpp:521-541 | Two row-major ordered lists with the same members are equal |
| `Day04.CandidatesAreMatches` | day-04/day-04.cpp:21-22 | What `find_elem_positions` returns on the grid built from the lines is the row-major list of cells holding the element |
| `Day04.SumScoresStep` | day-04/day-04.cpp:57-59 | Adding one more candidate adds its score |
| `Day04.SumMatches` | day-04/day-04.cpp:56-60 | The total is the sum of the candidates' scores |
| `Day04.ScoreAt` | day-04/day-04.cpp:58 | Part one scores a candidate by its XMAS count, part two by its cross |
| `Day04.PartOne` | day-04/day-04.cpp:19-61 | invalid_argument exactly when the lines are not all of one length (the grid constructor's check); otherwise the sum of the scores over every cell holding 'X' (part one) or 'A' (part two) |
| `Day05.UpdateOf` | day-05/day-05.cpp:40-48 | An update that parses has at least one page |
| `Day05.FirstBlank` | day-05/day-05.cpp:21-24 | The first section ends at the first blank line, or at the end of the input: no line before it is blank |
| `Day05.RulesAllParse` | day-05/day-05.cpp:25-38 | The rules section parses exactly when every line in it is a rule `a\|b`; then the rules are the lines' pairs, in order |
| `Day05.RulesStep` | day-05/day-05.cpp:25-38 | One more rule line: an earlier failure stays, a bad line fails with invalid_argument, a good one appends its pair |
| `Day05.Updates` | day-05/day-05.cpp:39-49 | Every parsed update is non-empty |
| `Day05.UpdatesStep` | day-05/day-05.cpp:21-49 | One more line of the second section: blank lines are skipped, a bad update fails with invalid_argument, a good one is appended |
| `Day05.UpdatesErrExtends` | day-05/day-05.cpp:39-49 | A failure in a prefix of the second section is a failure of the whole section |
| `Day05.AddRule` | day-05/day-05.cpp:34-38 | Inserting `before` into the set of `after` (creating it when missing) keeps the map equal to the rule list extended by `before\|after` |
| `Day05.InsertRule` | day-05/day-05.cpp:34-38 | The map after the insertion holds exactly the rules seen so far plus the new one |
| `Day05.ParseRule` | day-05/day-05.cpp:26-33 | The rule line's two numbers, invalid_argument unless it has exactly two tokens that are numbers |
| `Day05.ParseUpdate` | day-05/day-05.cpp:40-48 | The update line's numbers, invalid_argument for a token without a number |
| `Day05.ParseLine` | day-05/day-05.cpp:20-50 | One line of the loop: either everything parsed so far is in step with the input's rules and updates, or the whole input is malformed |
| `Day05.ParseInput` | day-05/day-05.cpp:17-54 | invalid_argument exactly when a line is malformed or there is no update; otherwise the map holds exactly the rules of the first section and the updates are those of the second, in order |
| `Day05.Finished` | day-05/day-05.cpp:51-53 | After the last line the rules and updates are those of the two sections |
| `Day05.RulesErr` | day-05/day-05.cpp:28-30 | A malformed rule line makes the input malformed |
| `Day05.UpdateInOrder` | day-05/day-05.cpp:64-74 | True exactly when no page is followed, or matched, by a page that a rule says must come before it |
| `Day05.RuleInMap` | day-05/day-05.cpp:66-69 | A pair is a rule exactly when the map's set for the later page holds the earlier page |
| `Day05.PartOne` | day-05/day-05.cpp:56-83 | invalid_argument exactly when the input is malformed or an in-order update has an even number of pages; otherwise the sum of the middle pages of the in-order updates |
| `Day05.OutOfOrderAddsNothing` | day-05/day-05.cpp:68-79 | An update out of order adds nothing to the sum, wherever it stands |
| `Day05.MoreRulesFewerInOrder` | day-05/day-05.cpp:64-74 | An update in order under more rules is in order under fewer |
| `Day05.SelfRuleBlocks` | day-05/day-05.cpp:68 | The inner loop starts at the page itself, so a rule `p\|p` puts every update holding p out of order |
| `Day06.TurnIsStep` | day-06/day-06.cpp:31-41 | One move of the guard: turn right while the cell ahead is an obstacle, at most four times; stuck after four turns, otherwise step ahead |
| `Day06.TurnFrom` | day-06/day-06.cpp:33-37 | One round of the turning loop: turn right exactly when the cell ahead is an obstacle |
| `Day06.WalkOnMap` | day-06/day-06.cpp:29-42 | Every marked cell is on the map, and the starting cell is marked when it is on the map |
| `Day06.WalkAvoidsObstacles` | day-06/day-06.cpp:33-41 | The guard never enters an obstacle |
| `Day06.WalkFuel` | day-06/day-06.cpp:29-42 | A walk that ends within some number of moves ends the same with more |
| `Day06.AnswerBounds` | day-06/day-06.cpp:19-45 | A walk that leaves the map has marked at least one cell |
| `Day06.PlusPlus` | day-06/day-06.cpp:30 | Marking two batches of cells is marking their union |
| `Day06.TurnAt` | day-06/day-06.cpp:31-37 | The inner loop on the grid gives the same direction and number of turns as the specification |
| `Day06.MarkCell` | day-06/day-06.cpp:30 | `grid.set(pos, 'X')` marks the cell and leaves the grid's size unchanged |
| `Day06.ShowsOnMap` | day-06/day-06.cpp:29 | Marking cells does not change which positions are on the grid |
| `Day06.WalkAdvance` | day-06/day-06.cpp:38-41 | A stuck guard makes the walk throw; otherwise the walk continues from the cell ahead with the current cell marked |
| `Day06.Move` | day-06/day-06.cpp:30-41 | One round of the outer loop marks the cell, turns, and either reports the guard stuck or steps ahead, in step with the walk |
| `Day06.Patrol` | day-06/day-06.cpp:27-42 | The outer loop marks exactly the cells of the walk, throws exactly when the walk gets stuck, and runs out of fuel only when the walk does |
| `Day06.DistinctCard` | day-06/day-06.cpp:44 | A list without repeats has as many elements as its set |
| `Day06.CountPositions` | day-06/day-06.cpp:44 | `find_elem_positions('X').size()` is the number of cells holding 'X' |
| `Day06.XCellsMember` | day-06/day-06.cpp:44 | A cell holds 'X' at the end exactly when it is on the map and was visited or held 'X' from the start |
| `Day06.FindStart` | day-06/day-06.cpp:22-27 | Throws exactly when the map does not hold exactly one '^'; otherwise its position |
| `Day06.CountMarks` | day-06/day-06.cpp:44 | The count of 'X' cells after the walk |
| `Day06.PartOne` | day-06/day-06.cpp:19-45 | Agrees with the walk specification: the number of distinct cells holding 'X' after the guard leaves the map, an error for no guard, several guards or a stuck guard |
| `Day07.EquationOf` | day-07/day-07.cpp:28-49 | A parsed equation has its result and at least two operands, one per token after the ':'; every failure is invalid_argument |
| `Day07.ParseEquation` | day-07/day-07.cpp:26-50 | One line: the equation of its tokens split at ':' and ' ' with ':' kept |
| `Day07.ParseEquations` | day-07/day-07.cpp:22-53 | Succeeds exactly when every line is a valid equation; then one equation per line, in order |
| `Day07.DigitsLeast` | day-07/day-07.cpp:78-81 | The loop's final n is the least power of ten above rhs (at least 10) |
| `Day07.ConcatOp` | day-07/day-07.cpp:75-83 | `concat_op` computes lhs times the least power of ten above rhs, plus rhs |
| `Day07.ConcatStep` | day-07/day-07.cpp:75-83 | Concatenating rhs is concatenating its leading digits and then its last digit |
| `Day07.ConcatShows` | day-07/day-07.cpp:75-83 | For lhs > 0 (the assert), the decimal text of `concat_op(lhs, rhs)` is that of lhs followed by that of rhs |
| `Day07.SearchFrom` | day-07/day-07.cpp:57-73 | From operand idx with accumulator acc, the search succeeds exactly when some choice of allowed operators, applied left to right to the remaining operands, reaches the result |
| `Day07.SearchSolvable` | day-07/day-07.cpp:57-63 | The search from the start succeeds exactly when the equation is solvable |
| `Day07.MoreOperators` | day-07/day-07.cpp:88-89 | An equation solvable with some operators stays solvable with more |
| `Day07.ApplyOp` | day-07/day-07.cpp:66 | Applies `+`, `*` or `concat_op` |
| `Day07.EquationHasSolution` | day-07/day-07.cpp:57-73 | `equation_has_solution` returns exactly the value of the search specification |
| `Day07.TotalSplit` | day-07/day-07.cpp:91-93 | The total of the solvable results splits over a split of the equations, so the order of the reduction does not matter |
| `Day07.TotalGrows` | day-07/day-07.cpp:96-99 | With non-negative results, the part-two total is at least the part-one total |
| `Day07.Operators` | day-07/day-07.cpp:88-89 | Both parts allow `+` and `*`; `concat_op` exactly in part two |
| `Day07.PartOne` | day-07/day-07.cpp:85-94 | invalid_argument when a line is not an equation; otherwise the sum of the results of the solvable equations |
| `Day07.PartTwo` | day-07/day-07.cpp:96-99 | Part one with `concat_op` allowed as well |
| `Day08.InMapCells` | day-08/day-08.cpp:41 | A position is one of the map's cells exactly when it is on the grid |
| `Day08.ContributionSymmetric` | day-08/day-08.cpp:37-55 | The antinodes of a pair do not depend on which antenna comes first |
| `Day08.AntennasAreAntinodes` | day-08/day-08.cpp:46-54 | In part two every antenna of a pair is itself an antinode |
| `Day08.PartOneWithinPartTwo` | day-08/day-08.cpp:37-55 | Every part-one antinode is a part-two antinode |
| `Day08.GroupAntennas` | day-08/day-08.cpp:26-35 | Every kind of antenna on the map maps to the list of exactly its positions, each listed once |
| `Day08.HandlePairOne` | day-08/day-08.cpp:37-45 | `handle_pair_p1` adds exactly the cells `b + 2(a - b)` and `a + 2(b - a)` that are on the map |
| `Day08.OnMap` | day-08/day-08.cpp:41 | `pos_on_grid` on the grid built from the lines holds exactly for the map's cells |
| `Day08.RayLength` | day-08/day-08.cpp:50-53 | A ray from a different antenna leaves the map within width + height steps, so the loop ends |
| `Day08.RayBetween` | day-08/day-08.cpp:50-53 | The map is convex along a ray: between two on-map points of a ray every point is on the map |
| `Day08.WalkRay` | day-08/day-08.cpp:47-54 | One direction of `handle_pair_p2` adds exactly the points `a + k·dir·(a - b)`, k ≥ 0, that are on the map |
| `Day08.RayEnds` | day-08/day-08.cpp:50-53 | The loop's stop at the first off-map point collects the whole ray |
| `Day08.RaysMakeLine` | day-08/day-08.cpp:46-55 | The two rays together are all the on-map points `a + k(a - b)` for whole k |
| `Day08.HandlePairTwo` | day-08/day-08.cpp:46-55 | `handle_pair_p2` adds exactly the pair's part-two antinodes |
| `Day08.HandlePair` | day-08/day-08.cpp:63 | The pair's antinodes of the part in question are added |
| `Day08.RowUnionMembers` | day-08/day-08.cpp:61-64 | The inner loop over j covers the pairs (i, j) with j after i |
| `Day08.TriMembers` | day-08/day-08.cpp:58-65 | The loops over i and j cover every pair i < j of the kind's positions |
| `Day08.TriLast` | day-08/day-08.cpp:58 | Stopping i before the last position (`last_i`) misses no pair |
| `Day08.HandleRow` | day-08/day-08.cpp:61-64 | The inner loop adds the antinodes of every pair (i, j) with j after i |
| `Day08.HandleKind` | day-08/day-08.cpp:58-65 | The two loops for one kind add the antinodes of all its pairs |
| `Day08.AllKinds` | day-08/day-08.cpp:57-66 | Over all kinds the set holds exactly the antinodes of every pair of antennas of one kind |
| `Day08.PartOne` | day-08/day-08.cpp:20-69 | invalid_argument for ragged lines; otherwise the number of map cells that are antinodes of some same-kind pair (`b + 2(a - b)` in part one, on the pair's line in part two) |
| `Day08.PartTwo` | day-08/day-08.cpp:71-74 | Part one with the line rule |
| `Day09.InsertBetween` | day-09/day-09.cpp:47 | `insert` places a range with a new start between the ranges starting before and after it |
| `Day09.InsertTaken` | day-09/day-09.cpp:84-89 | `insert` of a range whose start is already present leaves the set unchanged (the set compares by start alone) |
| `Day09.EraseAt` | day-09/day-09.cpp:82-83 | `erase` removes the range with the argument's start, and nothing else |
| `Day09.TidySlice` | day-09/day-09.cpp:40 | A slice of sorted, non-overlapping, non-empty ranges is again such |
| `Day09.TallyConcat` | day-09/day-09.cpp:97-105 | Block counts and weights add up over a split of the ranges |
| `Day09.WeightNonNegative` | day-09/day-09.cpp:61-90 | The weight Σ start·size over the file ranges is never negative |
| `Day09.TidyConcat` | day-09/day-09.cpp:40 | Two tidy lists, the first ending where the second may start, join into a tidy list |
| `Day09.Pieces` | day-09/day-09.cpp:61-67 | When a move is made, the free range comes before the occupied one, splitting the set into five parts |
| `Day09.EraseBoth` | day-09/day-09.cpp:82-83 | Erasing the free and the occupied range leaves the three other parts |
| `Day09.InsertShrunk` | day-09/day-09.cpp:70-74 | Case 1: the free range is relabelled with the file's id and the occupied range keeps its start with fewer blocks |
| `Day09.InsertSplit` | day-09/day-09.cpp:75-77 | Case 2: the file moves to the free range's start and a smaller gap follows it |
| `Day09.InsertRelabelled` | day-09/day-09.cpp:78-81 | Case 3: the free range is relabelled with the file's id and the occupied range is gone |
| `Day09.RoundShape` | day-09/day-09.cpp:69-89 | One round replaces the free range and the occupied range, in place, by what the case leaves |
| `Day09.MovedTidy` | day-09/day-09.cpp:69-81 | What a round leaves of each range stays within that range |
| `Day09.RoundTidy` | day-09/day-09.cpp:61-90 | A round keeps the ranges sorted, non-overlapping and non-empty |
| `Day09.RoundTally` | day-09/day-09.cpp:69-89 | A round changes a count only by what the two ranges are replaced with |
| `Day09.MovedMass` | day-09/day-09.cpp:69-81 | A round keeps the number of blocks of every file |
| `Day09.MovedWeight` | day-09/day-09.cpp:69-81 | A round strictly lowers the weight, since blocks only move to lower positions |
| `Day09.RoundMass` | day-09/day-09.cpp:61-90 | Every file has as many blocks after a round as before |
| `Day09.RoundKeeps` | day-09/day-09.cpp:61-90 | A round keeps the set tidy and every file's block count, and lowers the non-negative weight, so the loop ends |
| `Day09.FirstFree` | day-09/day-09.cpp:52-54 | `find_first_free` returns an index inside the set, or none |
| `Day09.LastOccupied` | day-09/day-09.cpp:55-57 | `find_last_occupied` returns an index inside the set, or none |
| `Day09.FirstFreeIs` | day-09/day-09.cpp:52-54 | The index found holds the first free range |
| `Day09.LastOccupiedIs` | day-09/day-09.cpp:55-57 | The index found holds the last occupied range |
| `Day09.Stops` | day-09/day-09.cpp:61-67 | When the loop stops, every file range comes before every free range |
| `Day09.CompactKeeps` | day-09/day-09.cpp:58-90 | The compacted set is tidy, lists the files before the gaps, and holds every file's blocks |
| `Day09.Move` | day-09/day-09.cpp:62-89 | One round on the set computes exactly the round of the specification |
| `Day09.Compact` | day-09/day-09.cpp:58-90 | The loop computes exactly the compaction of the specification |
| `Day09.LayoutTidy` | day-09/day-09.cpp:40-50 | The ranges built from a line of digits are tidy, from the first block on |
| `Day09.LayoutMass` | day-09/day-09.cpp:42-50 | File id has exactly the digit at position 2·id of blocks |
| `Day09.BuildRanges` | day-09/day-09.cpp:37-50 | The building loop computes exactly the layout: ranges of size digit i, file i/2 for even i and free for odd i, skipping empty ones |
| `Day09.SumOfFirstNFits` | day-09/day-09.cpp:92-94 | `sum_of_first_n(n)` fits the `int` it returns exactly when n ≤ 65535 |
| `Day09.SumStep` | day-09/day-09.cpp:92-94 | `sum_of_first_n(n)` adds n to `sum_of_first_n(n - 1)` |
| `Day09.IndexSum` | day-09/day-09.cpp:102 | The difference of the two triangular numbers is the sum of the positions start .. start + size − 1 |
| `Day09.RangeSumClosed` | day-09/day-09.cpp:102-103 | The closed formula gives id times the sum of the range's positions |
| `Day09.ChecksumOf` | day-09/day-09.cpp:96-106 | The summing loop computes the checksum: for every file block, id times position |
| `Day09.AnswerCompacted` | day-09/day-09.cpp:35-107 | The checksum is taken over a tidy set that lists files first and holds, for every file id, the digit at 2·id of blocks |
| `Day09.PartOne` | day-09/day-09.cpp:35-107 | out_of_range without a line, bad_optional_access for a non-digit, otherwise the checksum of the compacted disk |
| `Day10.Heights` | day-10/day-10.cpp:26-32 | One row of digit heights per line, each as long as its line |
| `Day10.RowsFine` | day-10/day-10.cpp:26-32 | Without an exception every line is a non-empty row of digits as wide as the first |
| `Day10.BuildHeightMap` | day-10/day-10.cpp:25-32 | The row loop throws exactly the first exception: bad_optional_access for a non-digit, out_of_range from `push_row` for a width differing from the first row's, runtime_error for an empty row; otherwise a new grid holding the heights, as wide as the first line and as high as the number of lines |
| `Day10.AdjacentAmongMembers` | day-10/day-10.cpp:37-41 | A neighbour is listed exactly when it is on the map and one of the steps leads to it |
| `Day10.AdjacentExact` | day-10/day-10.cpp:34-43 | `get_adjacent` lists exactly the on-map cells at Manhattan distance 1 |
| `Day10.GetAdjacent` | day-10/day-10.cpp:34-43 | The loop over `all_dirs_vec2` builds the list of on-map neighbours in the order right, left, up, down |
| `Day10.ReachViaMembers` | day-10/day-10.cpp:58-67 | The height-9 cells reached through a list of neighbours are those reached from the neighbours one step higher |
| `Day10.TrailSlice` | day-10/day-10.cpp:53-69 | A piece of a climbing trail is a climbing trail |
| `Day10.TrailPrepend` | day-10/day-10.cpp:58-66 | A step one higher onto the start of a trail extends it |
| `Day10.ReachHasTrail` | day-10/day-10.cpp:53-69 | Every cell a trailhead reaches has height 9 and ends a climbing trail from the trailhead |
| `Day10.TrailInReach` | day-10/day-10.cpp:53-69 | The end of every climbing trail that reaches height 9 is reached |
| `Day10.TrailHeights` | day-10/day-10.cpp:60 | Along a trail the height grows by exactly one per step |
| `Day10.ReachAtMostPaths` | day-10/day-10.cpp:61-63 | The part-one score (distinct summits) is at most the part-two score (paths) |
| `Day10.ReachViaAtMostPathsVia` | day-10/day-10.cpp:58-67 | The same bound over a list of neighbours |
| `Day10.Pushed` | day-10/day-10.cpp:65 | Pushing a cell adds its paths, summits and visits to what the stack still holds |
| `Day10.ViaStep` | day-10/day-10.cpp:58-67 | One more neighbour adds its paths, summits and visits when it is one higher |
| `Day10.ExploredStep` | day-10/day-10.cpp:58-67 | Exploring the neighbours one after another composes |
| `Day10.ViaOne` | day-10/day-10.cpp:59-60 | A single neighbour contributes exactly when it is one higher |
| `Day10.Step` | day-10/day-10.cpp:59-66 | One neighbour: a fresh summit is counted (and marked in part one), any other higher neighbour is pushed, so score plus what the stack holds stays the total |
| `Day10.Mark` | day-10/day-10.cpp:62 | `reached.set(adj_pos, !part_two)` marks the summit as reached exactly in part one |
| `Day10.Counted` | day-10/day-10.cpp:61-63 | A summit is one path, reaches itself, and is one visit |
| `Day10.Explore` | day-10/day-10.cpp:58-68 | The loop over a position's neighbours explores them all in order |
| `Day10.Summit` | day-10/day-10.cpp:58-60 | A summit pushed again (part one, already reached) adds nothing when popped |
| `Day10.Popped` | day-10/day-10.cpp:53-69 | One round of the depth-first search keeps the score plus what the stack still holds equal to the trailhead's score, and strictly lowers the work left, so the search ends |
| `Day10.TrailScore` | day-10/day-10.cpp:47-70 | The depth-first search from a trailhead returns its score: distinct summits in part one, climbing paths in part two |
| `Day10.Visit` | day-10/day-10.cpp:54-68 | One pop of the stack keeps the search invariant and lowers the work left |
| `Day10.ZerosBelow` | day-10/day-10.cpp:46 | Every listed cell holds height 0 and lies in the grid's first n cells |
| `Day10.Trailheads` | day-10/day-10.cpp:46 | Every trailhead has height 0 |
| `Day10.FlatSplit` | aoclib/grid.hpp:334-341 | Row-major index i is the cell (i mod w, i div w) |
| `Day10.ZerosBelowIncreasing` | day-10/day-10.cpp:46 | The height-0 cells are listed in row-major order |
| `Day10.ZerosBelowMembers` | day-10/day-10.cpp:46 | A cell is listed exactly when it has height 0 and lies in the first n cells |
| `Day10.TrailheadsExact` | day-10/day-10.cpp:46 | The trailheads are exactly the height-0 cells, in row-major order |
| `Day10.IncreasingUnique` | day-10/day-10.cpp:46 | Two row-major ordered lists with the same members are equal |
| `Day10.TrailheadsFound` | day-10/day-10.cpp:46 | What the grid search for height 0 returns is the list of trailheads |
| `Day10.HeightsSized` | day-10/day-10.cpp:25-32 | Without an exception the heights form a rectangle of digits of the lines' size |
| `Day10.SumTrailScores` | day-10/day-10.cpp:45-72 | The loop over the trailheads sums their scores |
| `Day10.PartOne` | day-10/day-10.cpp:23-73 | The first exception of the row loop; otherwise the sum over all height-0 cells of the number of distinct height-9 cells reachable by climbing trails (part one) or of the number of such trails (part two) |
| `Day10.PartTwo` | day-10/day-10.cpp:75-78 | Part one counting paths |
| `Day11.Pow10Add` | day-11/day-11.cpp:31-43 | Powers of ten multiply by adding exponents |
| `Day11.Pow10Mono` | day-11/day-11.cpp:31-43 | Powers of ten grow with the exponent |
| `Day11.FloorLog10Bounds` | day-11/day-11.cpp:18-29 | 10^⌊log10 n⌋ ≤ n < 10^(⌊log10 n⌋+1) |
| `Day11.FloorLog10Unique` | day-11/day-11.cpp:18-29 | That exponent is the only one with these bounds |
| `Day11.FloorLog10AtLeast` | day-11/day-11.cpp:24 | A power of ten at most n bounds ⌊log10 n⌋ from below |
| `Day11.FloorLog10AtMost` | day-11/day-11.cpp:24 | n below 10^e has ⌊log10 n⌋ below e |
| `Day11.Pow10Nineteen` | day-11/day-11.cpp:21 | 10^19 exceeds every int64 value |
| `Day11.CapNeverBinds` | day-11/day-11.cpp:21-27 | For every positive int64 the cap of 18 never binds: `log10_i64` is ⌊log10 n⌋ |
| `Day11.Log10I64` | day-11/day-11.cpp:18-29 | `log10_i64(n)` for n > 0 (the assert) is ⌊log10 n⌋ capped at 18 |
| `Day11.Pow10I64` | day-11/day-11.cpp:31-43 | For exp ≠ 0 (the assert) 0 for negative exponents, otherwise 10^min(exp, 18) |
| `Day11.Halves` | day-11/day-11.cpp:57-60 | Splitting gives two stones |
| `Day11.Blink` | day-11/day-11.cpp:50-64 | One blink turns a stone into one or two stones |
| `Day11.DivBounds` | day-11/day-11.cpp:57-58 | Quotient and remainder recompose the stone and lie within the expected bounds |
| `Day11.BlinkSplits` | day-11/day-11.cpp:54-60 | A stone with an even number of digits splits into its left and right halves, which recompose it, the left half having no leading zero |
| `Day11.HalfDigits` | day-11/day-11.cpp:57-58 | A number of 2h digits has a left half of exactly h digits and a right half below 10^h |
| `Day11.HalvesFitInt` | day-11/day-11.cpp:99-101 | For an int64 stone, the divisor and both halves fit in 32-bit int, so the narrowing in `len_after_blinks` loses nothing |
| `Day11.BlinkOthers` | day-11/day-11.cpp:51-64 | 0 becomes 1; a stone with an odd number of digits is multiplied by 2024 |
| `Day11.ExpandConcat` | day-11/day-11.cpp:50-65 | One blink of a list is the blinks of its parts, joined |
| `Day11.IterateConcat` | day-11/day-11.cpp:49-70 | Any number of blinks of a list is the blinks of its parts, joined |
| `Day11.IterateEmpty` | day-11/day-11.cpp:49-70 | No stones stay no stones |
| `Day11.IterateFirst` | day-11/day-11.cpp:49-70 | k + 1 blinks are one blink, then k |
| `Day11.BlinksConcat` | day-11/day-11.cpp:123-125 | The stones of a list after k blinks are those of each stone, in order, so counts add up stone by stone |
| `Day11.BlinkCount` | day-11/day-11.cpp:96-109 | k blinks of one stone are k − 1 blinks of what it becomes after one |
| `Day11.PairCount` | day-11/day-11.cpp:102 | The count of a pair is the sum of the two counts |
| `Day11.CountRules` | day-11/day-11.cpp:96-109 | The three cases of `len_after_blinks` compute the true count of stones |
| `Day11.BlinkStones` | day-11/day-11.cpp:50-65 | The inner loop of `apply_rules` computes one blink of the list |
| `Day11.ApplyRules` | day-11/day-11.cpp:45-72 | `apply_rules(input, n)` returns the stones after n blinks, and no stones at all for n ≤ 0 |
| `Day11.StoneCache.constructor` | day-11/day-11.cpp:121 | The cache starts empty |
| `Day11.StoneCache.Insert` | day-11/day-11.cpp:103 | `unordered_map::insert` adds the entry unless the key is already present, and a true count keeps the cache correct |
| `Day11.LenAfterBlinks` | day-11/day-11.cpp:86-110 | With a cache of true counts, returns the number of stones one stone becomes after the given blinks; the cache stays correct and only grows |
| `Day11.ReadStones` | day-11/day-11.cpp:114 | out_of_range without a line, invalid_argument for a token without digits, otherwise the first line's numbers |
| `Day11.PartOne` | day-11/day-11.cpp:112-116 | The number of stones after 25 blinks, or the parsing error |
| `Day11.CountStones` | day-11/day-11.cpp:123-125 | The sum of the per-stone counts is the number of stones the list becomes |
| `Day11.PartTwo` | day-11/day-11.cpp:118-126 | The number of stones after 75 blinks, or the parsing error |
| `Day12.WalkExtend` | day-12/day-12.cpp:42-49 | A same-plant step from the end of a walk extends it |
| `Day12.RegionStep` | day-12/day-12.cpp:42-49 | A same-plant neighbour of a region's plot, not yet flagged, belongs to the region |
| `Day12.RegionStart` | day-12/day-12.cpp:29-30 | The starting plot belongs to its region |
| `Day12.RegionPlant` | day-12/day-12.cpp:44 | Every plot of a region has the starting plot's plant and was not flagged before |
| `Day12.RegionWithin` | day-12/day-12.cpp:31-53 | A region lies inside every set that holds its start and is closed under same-plant steps |
| `Day12.RegionClosed` | day-12/day-12.cpp:42-49 | A region is closed under same-plant steps |
| `Day12.WalkReverse` | day-12/day-12.cpp:42-49 | A same-plant walk reversed is again such a walk |
| `Day12.RegionSymmetric` | day-12/day-12.cpp:31-53 | Being in one region is symmetric |
| `Day12.RegionSame` | day-12/day-12.cpp:31-53 | Every plot of a region has the same region |
| `Day12.RegionAvoided` | day-12/day-12.cpp:34-36 | A flood fill from a flagged plot collects nothing |
| `Day12.RegionAvoid` | day-12/day-12.cpp:70-76 | Flags outside a region do not change it |
| `Day12.SameAround` | day-12/day-12.cpp:40-50 | `num_adjacent` is at most the number of steps looked at |
| `Day12.SidesCount` | day-12/day-12.cpp:40-52 | A plot's fenced sides number the steps minus its same-plant neighbours |
| `Day12.FencesAreSides` | day-12/day-12.cpp:51-52 | `4 - num_adjacent` lies in 0..4 (the assert) and is the number of the plot's sides facing another plant or the edge |
| `Day12.SidesSplit` | day-12/day-12.cpp:56-59 | The sides of a set plus one plot are the set's sides and the plot's |
| `Day12.RegionPerimeter` | day-12/day-12.cpp:55-61 | Counting sides facing another plant gives the region's perimeter: its sides not facing a plot of the region |
| `Day12.MarkVisited` | day-12/day-12.cpp:37 | `visited.at(cur_pos) = 1` flags exactly one more plot |
| `Day12.Neighbour` | day-12/day-12.cpp:43-49 | One step: counted when it leads to the same plant; pushed when, in addition, it is not yet flagged |
| `Day12.Neighbours` | day-12/day-12.cpp:40-50 | The loop over the four steps counts the same-plant neighbours and pushes the unflagged ones |
| `Day12.StackStep` | day-12/day-12.cpp:46-48 | Everything pushed lies in the region |
| `Day12.PendingStep` | day-12/day-12.cpp:42-50 | Every same-plant neighbour not yet flagged is waiting on the stack |
| `Day12.PlotsStep` | day-12/day-12.cpp:38-52 | Each new plot is recorded once with its fence count |
| `Day12.FloodStep` | day-12/day-12.cpp:32-52 | One pop of an unflagged plot keeps the flood-fill invariant |
| `Day12.FloodSkip` | day-12/day-12.cpp:34-36 | Popping a flagged plot keeps the invariant |
| `Day12.PlotsTally` | day-12/day-12.cpp:55-59 | The plots recorded are the region's plots, one each, and their fences add up to its sides |
| `Day12.Tally` | day-12/day-12.cpp:55-59 | The area is the number of plots and the perimeter the sum of their fences |
| `Day12.RegionPrice` | day-12/day-12.cpp:24-62 | out_of_range for a position off the garden (`grid.at`); otherwise flags exactly the plot's region (plots reachable by same-plant steps that were not flagged) and returns its area times its perimeter |
| `Day12.FloodFill` | day-12/day-12.cpp:29-53 | The flood fill flags exactly the region and records its plots |
| `Day12.FloodStart` | day-12/day-12.cpp:29-30 | The stack with the start satisfies the invariant |
| `Day12.FloodDone` | day-12/day-12.cpp:31-53 | When the stack is empty the flagged plots are the region |
| `Day12.Visit` | day-12/day-12.cpp:31-53 | One pop keeps the invariant and flags a new plot or shortens the stack, so the fill ends |
| `Day12.Fill` | day-12/day-12.cpp:37-52 | Flagging a new plot, recording it and scanning its neighbours |
| `Day12.PriceSumRemove` | day-12/day-12.cpp:69-78 | The total price does not depend on the order of the regions |
| `Day12.PriceSumAdd` | day-12/day-12.cpp:74 | Adding a new region adds its price |
| `Day12.BelowNext` | day-12/day-12.cpp:70-76 | The regions met in the first i + 1 plots are those of the first i plus the region of plot i |
| `Day12.SweepSkip` | day-12/day-12.cpp:71-72 | A flagged plot lies in a region already priced |
| `Day12.SweepAdd` | day-12/day-12.cpp:73-75 | An unflagged plot starts a new region, unaffected by the flags, which it then covers |
| `Day12.BelowAll` | day-12/day-12.cpp:70-76 | After the sweep every region of the garden has been met |
| `Day12.SweepStep` | day-12/day-12.cpp:70-76 | One plot of the sweep keeps: the result is the price sum of the regions met |
| `Day12.SweepPrice` | day-12/day-12.cpp:73-75 | An unflagged plot adds its region's price |
| `Day12.SweepKeep` | day-12/day-12.cpp:71-72 | A flagged plot adds nothing |
| `Day12.SweepClose` | day-12/day-12.cpp:74 | The price of the region found is the price of the plot's whole region |
| `Day12.PriceOf` | day-12/day-12.cpp:61 | Area times counted sides is the region's price |
| `Day12.Flagged` | day-12/day-12.cpp:71 | A plot reads non-zero in `visited` exactly when it was flagged |
| `Day12.SweepStart` | day-12/day-12.cpp:67-69 | The all-zero grid starts the sweep with nothing priced |
| `Day12.SweepEnd` | day-12/day-12.cpp:78 | At the end the result is the sum over all regions of area times perimeter |
| `Day12.PartOne` | day-12/day-12.cpp:64-79 | invalid_argument for ragged lines; otherwise the sum over the garden's regions of area times perimeter |
| `Day14.CMod` | day-14/day-14.cpp:71-72 | C++ `%` truncates toward zero: the remainder is smaller than the modulus in size and takes the sign of the dividend |
| `Day14.NormIsMod` | day-14/day-14.cpp:71-78 | Adding the modulus to a negative remainder gives the mathematical remainder, in 0 .. g − 1 |
| `Day14.NormShift` | day-14/day-14.cpp:71-78 | Normalising before adding more does not change the result |
| `Day14.ModAdd` | day-14/day-14.cpp:71-72 | Remainders are compatible with addition |
| `Day14.ModUnique` | day-14/day-14.cpp:71-72 | The remainder is the unique r in 0 .. g − 1 with x = g·k + r |
| `Day14.SimulateOnGrid` | day-14/day-14.cpp:68-81 | `simulate_robot` ends on the grid, at (pos + vel·seconds) mod the grid size in each coordinate |
| `Day14.SimulateCompose` | day-14/day-14.cpp:68-81 | Simulating s seconds and then t seconds is simulating s + t seconds |
| `Day14.QuadrantUnique` | day-14/day-14.cpp:96-110 | A position is counted in at most one quadrant |
| `Day14.QuadrantCover` | day-14/day-14.cpp:96-110 | A position is counted in some quadrant exactly when it is on neither middle line |
| `Day14.Count` | day-14/day-14.cpp:95-111 | A quadrant holds at most all robots |
| `Day14.CountsCover` | day-14/day-14.cpp:96-110 | The four counts plus the robots on a middle line add up to all robots |
| `Day14.ProductZero` | day-14/day-14.cpp:113-116 | The product is zero exactly when some count is zero |
| `Day14.CountsProductZero` | day-14/day-14.cpp:113-116 | The safety factor is zero exactly when some quadrant is empty |
| `Day14.SafetyFactorZero` | day-14/day-14.cpp:83-118 | The same for the robots after the simulation |
| `Day14.CountQuadrants` | day-14/day-14.cpp:95-111 | From zeros, the counting loop leaves each quadrant's count of end positions |
| `Day14.MultiplyCounts` | day-14/day-14.cpp:113-116 | The loop multiplies the four counts |
| `Day14.PartOne` | day-14/day-14.cpp:83-118 | The product of the four quadrant counts of the robots' positions after 100 seconds on the 101 × 103 grid |
| `Day15.MoveSymbol` | day-15/day-15.cpp:33-45 | Every direction has an arrow symbol that decodes back to it |
| `Day15.ArrowOf` | day-15/day-15.cpp:33-48 | A character decodes to a direction exactly when it is that direction's arrow |
| `Day15.Decode` | day-15/day-15.cpp:32-49 | A line of arrows decodes to one direction per character, each re-encoding to that character |
| `Day15.Stripped` | day-15/day-15.cpp:24 | Every line is taken without its spaces and tabs |
| `Day15.BeforeBlank` | day-15/day-15.cpp:25-31 | Before the first blank line every line is a map row and there are no moves |
| `Day15.LinesAfterSnoc` | day-15/day-15.cpp:32-49 | The move text grows by each later line without its whitespace |
| `Day15.AfterBlank` | day-15/day-15.cpp:25-31 | The map is the lines before the first blank line and the moves are the lines after it |
| `Day15.Extend` | day-15/day-15.cpp:23-51 | More lines only extend the map rows and the move text, and after a blank line add no map rows |
| `Day15.RaggedSticks` | day-15/day-15.cpp:30 | A map row of another width in a prefix makes `push_row` throw out_of_range for the whole input |
| `Day15.BadMoveSticks` | day-15/day-15.cpp:46-47 | A non-arrow in the moves of a prefix with well-formed rows makes the whole input throw runtime_error |
| `Day15.DecodeLine` | day-15/day-15.cpp:32-49 | runtime_error exactly when the line holds a non-arrow; otherwise its moves are appended |
| `Day15.ParsedRow` | day-15/day-15.cpp:29-30 | A row of the right width is appended to the grid |
| `Day15.ParsedMoves` | day-15/day-15.cpp:31-49 | A line of arrows after the blank appends its moves |
| `Day15.ParsedBlank` | day-15/day-15.cpp:25-27 | A blank line switches to the moves |
| `Day15.ParsedRowFails` | day-15/day-15.cpp:30 | A row of another width fails the parse with out_of_range |
| `Day15.ParsedMoveFails` | day-15/day-15.cpp:46-47 | A bad move symbol fails the parse with runtime_error |
| `Day15.ParseInput` | day-15/day-15.cpp:20-52 | Throws exactly the parse's error; otherwise the grid holds the map rows, row by row, and the moves are the decoded arrows in order |
| `Day15.Idx` | aoclib/grid.hpp:330-332 | An on-board position has a row-major index inside the grid |
| `Day15.IdxInjective` | aoclib/grid.hpp:330-332 | Different on-board positions have different indices |
| `Day15.AtIsTryGet` | aoclib/grid.hpp:379-388 | The warehouse reading agrees with `try_get` |
| `Day15.RayCoords` | day-15/day-15.cpp:58-59 | The j-th cell from r in direction d is r + j·d |
| `Day15.RayDistinct` | day-15/day-15.cpp:58-59 | Cells at different distances along a ray differ |
| `Day15.ReachStep` | day-15/day-15.cpp:59 | Each step along a ray brings it closer to leaving the board, so the box scan ends |
| `Day15.RunCells` | day-15/day-15.cpp:59 | The scan passes over exactly a run of boxes and stops at the first cell that is not a box |
| `Day15.MoveSpec` | day-15/day-15.cpp:54-70 | A move either throws out_of_range (the cell past the boxes is off the grid and `get` throws) or keeps the grid's size with the robot's symbol at its new position |
| `Day15.FrontOnBoard` | day-15/day-15.cpp:65-69 | When the cell past the boxes is on the board so is the cell in front of the robot |
| `Day15.ShiftStep` | day-15/day-15.cpp:65-67 | One copy of the shifting loop moves the cell behind forward by one |
| `Day15.FindRunEnd` | day-15/day-15.cpp:58-59 | The scanning loop ends at the first cell past the run of boxes |
| `Day15.MoveSpecCases` | day-15/day-15.cpp:61-69 | Off the grid: out_of_range; not free: nothing changes; free: that cell takes a box, the robot advances one cell, and its old cell is freed |
| `Day15.ShiftRun` | day-15/day-15.cpp:65-67 | The shifting loop moves every cell from the robot to the end one step forward |
| `Day15.RobotMove` | day-15/day-15.cpp:54-70 | `robot_move` changes the grid and the robot's position exactly as the move specification says, and throws exactly when it does |
| `Day15.MoveKeepsSymbols` | day-15/day-15.cpp:54-70 | A move only rearranges the symbols: the multiset of cells is unchanged |
| `Day15.MoveShifts` | day-15/day-15.cpp:54-70 | A move that happens puts the robot one step ahead, frees its old cell, keeps the boxes in a row behind it and changes no other cell than those three; a blocked move changes nothing |
| `Day15.Run` | day-15/day-15.cpp:79-81 | The moves one after another: out_of_range at the first failing move, otherwise a grid of the same size with the robot's symbol carried along |
| `Day15.RunErrSticks` | day-15/day-15.cpp:79-81 | The first failing move decides the outcome |
| `Day15.RunKeepsSymbols` | day-15/day-15.cpp:79-81 | All moves together only rearrange the symbols |
| `Day15.FirstAt` | day-15/day-15.cpp:77 | The first index holding the character, or the length when there is none |
| `Day15.Start` | day-15/day-15.cpp:77 | The robot's start holds '@', and there is none exactly when no cell holds '@' |
| `Day15.FindRobot` | day-15/day-15.cpp:77 | The first '@' in row-major order; out_of_range (`.at(0)` of an empty list) when there is none |
| `Day15.RobotsFound` | day-15/day-15.cpp:77 | A grid with an '@' yields a non-empty list of positions |
| `Day15.FirstPosition` | day-15/day-15.cpp:77 | The first position of the row-major list is the first '@' |
| `Day15.Gps` | day-15/day-15.cpp:86 | A GPS coordinate is at least 100 times the row |
| `Day15.GpsSumRemove` | day-15/day-15.cpp:83-88 | The GPS sum does not depend on the order the boxes are visited in |
| `Day15.GpsSumAdd` | day-15/day-15.cpp:85-86 | One more box adds its GPS coordinate |
| `Day15.BoxesAt` | day-15/day-15.cpp:85 | A position counts exactly when it holds a box |
| `Day15.BelowStep` | day-15/day-15.cpp:84-88 | The sweep adds the cell at index k exactly when it holds a box |
| `Day15.GpsOf` | day-15/day-15.cpp:83-89 | The sweep sums x + 100·y over the cells holding a box |
| `Day15.BoardSize` | day-15/day-15.cpp:29-30 | The rows of equal width fill exactly width × height cells |
| `Day15.PartOne` | day-15/day-15.cpp:72-90 | The parse error, out_of_range without a robot, the first failing move's error, or the GPS sum of the boxes after all moves |
| `Day16.CandidateStep` | day-16/day-16.cpp:33-38 | Each candidate is one step in a unit direction, never backwards, costing 1 straight on or 1001 after a turn |
| `Day16.LeftMove` | day-16/day-16.cpp:35 | Turning left and stepping costs TURN_COST + FORWARD_COST |
| `Day16.RightMove` | day-16/day-16.cpp:36 | Turning right and stepping costs TURN_COST + FORWARD_COST |
| `Day16.ForwardMove` | day-16/day-16.cpp:37 | Stepping straight on costs FORWARD_COST |
| `Day16.UnitCases` | day-16/day-16.cpp:33 | A unit direction is one of the four axis directions |
| `Day16.Keep` | day-16/day-16.cpp:40-44 | Exactly the candidates on the map that are not walls are kept, in order |
| `Day16.AdjacentStates` | day-16/day-16.cpp:29-46 | The `adjacent_states` loop returns the candidates whose tile `try_get` finds and is not '#' |
| `Day16.ReachedStart` | day-16/day-16.cpp:59 | The search starts facing east at cost 0 |
| `Day16.WalkExtend` | day-16/day-16.cpp:77-81 | A walk followed by an adjacent state is a walk |
| `Day16.ReachedStep` | day-16/day-16.cpp:77-81 | A state adjacent to a reachable state is reachable |
| `Day16.WalkBound` | day-16/day-16.cpp:33-38 | Along a walk the direction stays a unit vector and the cost is at least the distance travelled |
| `Day16.Triangle` | day-16/day-16.cpp:33-38 | The Manhattan length of a sum is at most the sum of the lengths |
| `Day16.ReachedBound` | day-16/day-16.cpp:33-38 | A reachable state costs at least its Manhattan distance from the start |
| `Day16.ReachedFreshStart` | day-16/day-16.cpp:59 | The start state is reachable without revisiting the start tile |
| `Day16.ReachedFreshStep` | day-16/day-16.cpp:77-81 | A step from a state reached without returning to the start stays so unless it enters the start tile, and costs more than 0 |
| `Day16.PopMin` | day-16/day-16.cpp:62-63 | `top` and `pop` remove a state of least score and keep the others |
| `Day16.CostSumNonneg` | day-16/day-16.cpp:48 | The total of non-negative costs is non-negative |
| `Day16.CostSumUpdate` | day-16/day-16.cpp:79 | Overwriting one cost changes the total by the difference |
| `Day16.CostLowered` | day-16/day-16.cpp:78-79 | Lowering one cost keeps the costs bounded, lowers their total and raises none |
| `Day16.OnMap` | day-16/day-16.cpp:41 | States found open by `try_get` lie on the map |
| `Day16.LowerKeepsQueued` | day-16/day-16.cpp:78-80 | Lowering costs keeps every queued state justified |
| `Day16.Push` | day-16/day-16.cpp:78-80 | Pushing a cheaper adjacent state keeps the search invariant and lowers the cost total |
| `Day16.RelaxStep` | day-16/day-16.cpp:77-82 | One pass of the relaxing loop keeps its invariant |
| `Day16.RelaxOne` | day-16/day-16.cpp:78-81 | A cheaper state overwrites its tile's cost and is queued; otherwise nothing changes |
| `Day16.Relax` | day-16/day-16.cpp:77-82 | The relaxing loop lowers tile costs and queues exactly the cheaper adjacent states |
| `Day16.SearchStep` | day-16/day-16.cpp:61-82 | One round keeps the invariant, raises no cost, and either returns the cost of a real walk to the end or shrinks the cost total or the queue |
| `Day16.FindCheapestPath` | day-16/day-16.cpp:27-86 | As written, with costs keyed by tile: `at` throws out_of_range exactly for a start off the map, and a result other than −1 is the cost of a real walk to the end |
| `Day16.TilesFound` | day-16/day-16.cpp:91-92 | A grid holding the tile yields a non-empty list of positions |
| `Day16.FindTile` | day-16/day-16.cpp:91-92 | `find_elem_positions(c).at(0)` is the first cell holding c in row-major order (no cell of c lies in an earlier row, or earlier in its row), and throws out_of_range exactly when there is none |
| `Day16.PartOneAsWritten` | day-16/day-16.cpp:88-94 | As written: invalid_argument for a ragged map, out_of_range without 'S' or 'E', otherwise −1 or the cost of a real walk from the first 'S' to the first 'E' in row-major order that never re-enters the start tile |
| `Day16.UnitFacing` | day-16/day-16.cpp:20-23 | A unit direction has a facing number 0..3 that maps back to it |
| `Day16.SlotRoundTrip` | day-16/day-16.cpp:48 | A tile and facing have a slot in the cost table that decodes back to them |
| `Day16.SlotNames` | day-16/day-16.cpp:48 | Every slot decodes to an on-map tile and facing that encode back to it |
| `Day16.Shifted` | day-16/day-16.cpp:33-38 | Moves do not depend on the score already paid |
| `Day16.SettledAt` | day-16/day-16.cpp:68-71 | A slot cheaper than everything queued belongs to an expanded state |
| `Day16.SettledNext` | day-16/day-16.cpp:77-82 | A neighbour of an expanded state cheaper than the queue is expanded too |
| `Day16.AlongWalks` | day-16/day-16.cpp:61-83 | A property kept by every step below a bound holds at the end of every walk below it |
| `Day16.NoneCheaper` | day-16/day-16.cpp:73-74 | No walk reaches the end for less than the cheapest queued score |
| `Day16.StaleDropped` | day-16/day-16.cpp:68-71 | Dropping a popped state whose score is stale keeps the bookkeeping |
| `Day16.LivePopped` | day-16/day-16.cpp:62-66 | Expanding a popped live state keeps the bookkeeping |
| `Day16.TrackPush` | day-16/day-16.cpp:79-80 | Pushing with a new slot cost keeps the bookkeeping |
| `Day16.PushByFacing` | day-16/day-16.cpp:78-80 | Pushing a cheaper state keeps the search invariant and lowers the cost total |
| `Day16.PendingKept` | day-16/day-16.cpp:78-80 | Lower costs keep every queued state justified |
| `Day16.RelaxStepByFacing` | day-16/day-16.cpp:77-82 | One pass of the relaxing loop keyed by facing keeps its invariant |
| `Day16.RelaxedLowered` | day-16/day-16.cpp:78-79 | Lowering costs keeps expanded states relaxed |
| `Day16.SlotsLowered` | day-16/day-16.cpp:78-79 | Lowering costs keeps already relaxed slots relaxed |
| `Day16.RelaxOneByFacing` | day-16/day-16.cpp:78-81 | A cheaper state overwrites its slot's cost and is queued; otherwise nothing changes |
| `Day16.RelaxByFacing` | day-16/day-16.cpp:77-82 | The relaxing loop keyed by facing lowers slot costs and queues exactly the cheaper adjacent states |
| `Day16.RelaxedAdd` | day-16/day-16.cpp:77-82 | After relaxing all its neighbours the current state counts as expanded |
| `Day16.SearchStepByFacing` | day-16/day-16.cpp:61-82 | One round either returns the least cost of any walk to the end or keeps the invariant while the cost total or the queue shrinks |
| `Day16.FindCheapestPathByFacing` | day-16/day-16.cpp:27-86 | With costs keyed by tile and facing: out_of_range exactly for a start off the map, otherwise the least cost over all walks to the end, or −1 when there is none |
| `Day16.PartOne` | day-16/day-16.cpp:88-94 | invalid_argument for a ragged map, out_of_range without 'S' or 'E', otherwise the least cost from the first 'S' to the first 'E' in row-major order |
| `Day16.DeadEndTiles` | day-16/day-16.cpp:27-86 | The four-row dead-end maze has its end in a dead end entered only from the start tile |
| `Day16.FirstMoveOffEnd` | day-16/day-16.cpp:33-38 | Facing east from the start the first move cannot enter the end |
| `Day16.WalledEntry` | day-16/day-16.cpp:33-41 | The end of that maze can only be entered from the start tile |
| `Day16.NoFreshWalkToEnd` | day-16/day-16.cpp:61-82 | No walk that avoids returning to the start reaches the end |
| `Day16.DeadEndUnreachedFresh` | day-16/day-16.cpp:61-82 | In that maze the tile-keyed search can justify no cost for the end |
| `Day16.DeadEndMoves` | day-16/day-16.cpp:33-38 | The loop around the maze is a chain of legal moves |
| `Day16.DeadEndReached` | day-16/day-16.cpp:33-38 | The end is reachable at cost 4005 by going round the loop and re-entering from the start |
| `Day16.DeadEndAsWritten` | day-16/day-16.cpp:88-94 | `part_one` with the tile-keyed search answers −1 on that maze although a walk of cost 4005 reaches the end |
| `Day16.DeadEndByFacing` | day-16/day-16.cpp:88-94 | `part_one` with the search keyed by tile and facing answers a cost between 0 and 4005 on that maze |
| `Day17.Pow2` | day-17/day-17.cpp:61 | A power of two is at least 1 |
| `Day17.Pow2Mono` | day-17/day-17.cpp:61 | Powers of two grow with the exponent |
| `Day17.Pow2Add` | day-17/day-17.cpp:61 | 2^(a+b) = 2^a · 2^b |
| `Day17.Pow2Values` | day-17/day-17.cpp:61 | 2^30, 2^31 and 2^32 have their known values |
| `Day17.Unsigned` | day-17/day-17.cpp:20 | The 32-bit pattern of an `int` is below 2^32 |
| `Day17.Signed` | day-17/day-17.cpp:20 | Reading a 32-bit pattern as an `int` gives an `int`, negative exactly when the top bit is set |
| `Day17.PatternRoundTrip` | day-17/day-17.cpp:20 | Reading back the pattern of an `int` gives the same `int` |
| `Day17.XorBelow` | day-17/day-17.cpp:75 | The xor of two n-bit numbers has n bits |
| `Day17.XorNatUndo` | day-17/day-17.cpp:75 | Xoring twice with the same number undoes it |
| `Day17.XorNatSelf` | day-17/day-17.cpp:98 | A number xored with itself is 0 |
| `Day17.Xor32` | day-17/day-17.cpp:75 | `^` of two `int`s is an `int` |
| `Day17.XorUndo` | day-17/day-17.cpp:75 | Applying `^ y` twice gives back the register |
| `Day17.XorNonneg` | day-17/day-17.cpp:75 | `^` of non-negative `int`s is non-negative, and of 3-bit values is a 3-bit value |
| `Day17.ShiftOne` | day-17/day-17.cpp:61 | `1 << k` is defined exactly for 0 ≤ k ≤ 31; it is positive below 31 and `INT_MIN` at 31 |
| `Day17.ShiftIsPattern` | day-17/day-17.cpp:61 | `1 << k` is the `int` whose pattern is 2^k |
| `Day17.DivisionIdentity` | day-17/day-17.cpp:62 | C++ division truncating toward zero and `%` satisfy (a / d)·d + a % d = a |
| `Day17.TruncDivBound` | day-17/day-17.cpp:62 | A quotient is no larger in size than the dividend, and agrees with floor division for non-negative operands |
| `Day17.QuotientBelow` | day-17/day-17.cpp:62 | Dividing by at least 1 does not increase a natural number |
| `Day17.QuotientHalf` | day-17/day-17.cpp:62 | Dividing by at least 2 at least halves a natural number |
| `Day17.TruncDivInt32` | day-17/day-17.cpp:62 | Dividing an `int` by anything but 0 and −1 gives an `int` |
| `Day17.RegisterIndex` | day-17/day-17.cpp:27-37 | Register names 'A'..'C' name slots 0..2 |
| `Day17.Combo` | day-17/day-17.cpp:45-57 | Operands 0..3 stand for themselves, 4..6 for registers A..C, and 7 throws runtime_error |
| `Day17.StepWellformed` | day-17/day-17.cpp:66-120 | Each instruction keeps three `int` registers and the program |
| `Day17.ThreeBitStep` | day-17/day-17.cpp:123-128 | In a program of 3-bit numbers an instruction never throws out_of_range, throws runtime_error only for combo operand 7, and is undefined only for a shift by a register outside 0..31 |
| `Day17.ThreeBitRun` | day-17/day-17.cpp:123-129 | A run of a 3-bit program never stops with out_of_range, and its only error is runtime_error |
| `Day17.JoinLength` | day-17/day-17.cpp:102-110 | n values print as one character each, 2n − 1 characters |
| `Day17.SplitJoin` | day-17/day-17.cpp:102-110 | The printed output reads back as the values printed, in order |
| `Day17.EmitPrinted` | day-17/day-17.cpp:104-108 | Printing one more digit appends it to the comma-separated list |
| `Day17.EmitKeepsPrinted` | day-17/day-17.cpp:104-108 | Printing keeps the output a comma-separated list and only extends it |
| `Day17.StepOutput` | day-17/day-17.cpp:102-110 | Only `out` changes the output, appending its combo operand mod 8 |
| `Day17.StepPrinted` | day-17/day-17.cpp:66-120 | Each instruction keeps the output a comma-separated list and only extends it |
| `Day17.RunPrinted` | day-17/day-17.cpp:123-129 | A run only extends the output and leaves it a comma-separated list |
| `Day17.DvShrinks` | day-17/day-17.cpp:59-64 | With a non-negative A and a shift of at most 30, `dv` stores A / 2^k, between 0 and A |
| `Day17.Computer.constructor` | day-17/day-17.cpp:18-23 | A new computer has zero registers, no program, pc 0 and no output |
| `Day17.Computer.RegisterWrite` | day-17/day-17.cpp:33-37 | Writing a register changes that register only |
| `Day17.Computer.Dv` | day-17/day-17.cpp:59-64 | `dv` stores A divided by `1 << combo` in the target register and advances pc by 2 |
| `Day17.Computer.Adv` | day-17/day-17.cpp:68-71 | `adv` performs the step of opcode 0 |
| `Day17.Computer.Bxl` | day-17/day-17.cpp:73-77 | `bxl` performs the step of opcode 1: B ^= literal |
| `Day17.Computer.Bst` | day-17/day-17.cpp:79-83 | `bst` performs the step of opcode 2: B = combo % 8 |
| `Day17.Computer.Jnz` | day-17/day-17.cpp:85-93 | `jnz` performs the step of opcode 3: jump to the literal unless A is 0 |
| `Day17.Computer.Bxc` | day-17/day-17.cpp:95-100 | `bxc` performs the step of opcode 4: B ^= C |
| `Day17.Computer.Out` | day-17/day-17.cpp:102-110 | `out` performs the step of opcode 5: print combo % 8 after a comma unless the output is empty |
| `Day17.Computer.Bdv` | day-17/day-17.cpp:112-115 | `bdv` performs the step of opcode 6 |
| `Day17.Computer.Cdv` | day-17/day-17.cpp:117-120 | `cdv` performs the step of opcode 7 |
| `Day17.Computer.Execute` | day-17/day-17.cpp:126-127 | Dispatching on the opcode performs one step |
| `Day17.Computer.RunProgram` | day-17/day-17.cpp:123-129 | `run_program` leaves the computer as the step function run until pc leaves the program, or an error |
| `Day17.Computer.Reset` | day-17/day-17.cpp:131-135 | `reset` sets pc to 0, clears the output and keeps registers and program |
| `Day17.Assign` | day-17/day-17.cpp:172-185 | Assigning registers keeps three `int` registers |
| `Day17.AssignNamed` | day-17/day-17.cpp:183 | Without repeats each named register holds its value |
| `Day17.ThreeNamesCover` | day-17/day-17.cpp:175-184 | Three distinct names cover A, B and C |
| `Day17.ReadRegisters` | day-17/day-17.cpp:172-185 | Reading the register lines fails exactly on a repeated name, otherwise sets each named register |
| `Day17.Parse` | day-17/day-17.cpp:158-169 | invalid_argument exactly for a repeated register or a program number outside 0..7; otherwise a computer with those registers, that program, pc 0 and no output |
| `Day17.PartOne` | day-17/day-17.cpp:206-211 | The parse error, or the run's outcome and output; never out_of_range, and always a comma-separated list with one character per value |

## Left out

- File, argument and console I/O (`file_getlines`, `handle_input`, `print_day`, each day's `main`) are not modelled. Each `PartOne`/`PartTwo` takes the input lines as a parameter.
- `str_tolower_cpy`, `str_toupper_cpy` and their in-place variants are not modelled, because they depend on the locale through `std::tolower`/`std::toupper`.
- aoclib/hash.hpp is not part of this model; it relies on `std::hash` and `size_t` wrap-around.
- aoclib/parallel.hpp is not part of this model, because it is threads and a mutex. `Day07.PartOne` and `Day07.PartTwo` model `parallel_transform_reduce` as a sequential sum over the equations.
- aocfetch.py (HTTP download) is not part of this model.
- day-13 (double-precision elimination) is not part of this model, and neither is the empty day-xy template.
- `RDParser` is not part of this model. Day14.PartOne therefore takes the robots already parsed. Day17.PartOne takes the register entries and the program numbers already read, and keeps only the repeated-register check and the 0..7 check of `ComputerParser::parse`.
- `Grid::try_set` is not modelled, because it calls `set` without a value and cannot be instantiated.
- None of the `operator<<` printers are modelled.
- The `part_two` functions of days 2, 5, 6, 9, 12, 14, 15, 16 and 17 only return −1 and are not modelled.
- Raw pointers are modelled as indices: the grid iterators' `ptr`, `LRUCache::get_ptr` (an index into the node array, so only its recency effect is captured) and the linked nodes' `prev`/`next`. Aliasing through a returned pointer is not modelled, and neither is the const/mutable iterator split.
- `Grid::foreach`, `Grid::find_elem_positions_if`, the `Grid(width, height, fill)` constructor and `Vec2`'s `+=`, `-=`, scalar `*` and `perp_dot` are used by the puzzles but are not among the source files. They are given row-major, fill and perpendicular semantics: `Grids.Grid.Filled`, `Grids.Grid.FindElemPositions`, and row-major index loops.
- AocIo.ParseNum: parses an optionally signed decimal. `std::stoi`/`std::stoll` throwing out_of_range for a value that does not fit is not modelled.
- Day09.SumOfFirstN: computed over unbounded integers. The C++ lambda narrows n(n+1)/2 to a 32-bit `int`, which `Day09.SumOfFirstNFits` shows is exact only for n ≤ 65535. The model therefore agrees with the program only while no file block lies past position 65535; the wrap-around beyond that is not modelled.
- Day09.ChecksumOf: the sum is unbounded; overflow of the C++ accumulator is not modelled.
- Day11.Blink: `stone * 2024` is computed over unbounded integers, so the int64 overflow of a large stone is not modelled. The narrowing of the halves to `int` (day-11.cpp:99-101) is proved harmless by `Day11.HalvesFitInt`.
- Day11.ReadStones, Day11.PartOne and Day11.PartTwo require `Engraved(lines)`, which excludes negative stones such as "-5" that `parse_num_i64` accepts. This is the caller's side of `log10_i64`'s `assert(n > 0)`; what happens past that assert is not modelled.
- Day11.Log10I64 and Day11.Pow10I64 turn the debug asserts `assert(n > 0)` and `assert(exp != 0)` into requires.
- Day07.ConcatOp: the debug `assert(lhs > 0 && rhs >= 0)` of `concat_op` is not modelled. The model computes the concatenation for every rhs, counting digits from 10 upward as the loop does; int64 overflow of the result is not modelled.
- AocIo.ParseHex: the `IntT` accumulators `res` and `fac` (aocio.hpp:183-201) are unbounded integers here. Their overflow on a digit string longer than `IntT` holds is not modelled, so the model returns the exact value of every hex string.
- AocIo.SumHexDigits: `res += digit * fac` and `fac *= 16` (aocio.hpp:185-200) are computed over unbounded integers, so the overflow of `IntT` on long digit strings is not modelled.
- Day05.PartOne: the `int sum_of_middle_pages` (day-05.cpp:61, 78) is an unbounded integer, so its overflow is not modelled.
- Day07.ApplyOp: `+` and `*` on `int64_t` (day-07.cpp:66) are computed exactly over unbounded integers. Their signed overflow, which the unpruned search can reach on long equations with large operands, is not modelled.
- Day07.EquationHasSolution: the search accumulates `current_result` as an unbounded integer (day-07.cpp:57-73), so a branch whose `int64_t` result would overflow and happen to equal the target is not modelled.
- Day07.PartOne: the `int64_t` total of the solvable equations' results (day-07.cpp:91) is an unbounded sum; its overflow is not modelled.
- Day07.PartTwo: the same `int64_t` total, with concatenation among the operators, is an unbounded sum; its overflow is not modelled.
- Day12.PartOne: the sum of area × perimeter is unbounded; `int` overflow is not modelled.
- Day14.SimulateRobot: `vel * seconds` is computed over unbounded integers, so its `int` overflow is not modelled. Day14.SafetyFactor: the product of the quadrant counts is unbounded.
- Day15.GpsOf: the GPS sum is unbounded; `int` overflow is not modelled.
- Day15.RobotMove requires the robot to be on the board, which `part_one` always maintains.
- Day01.PartOne, Day01.PartTwo, Day03.PartOne, Day04.PartOne, Day08.PartOne and Day10.PartOne: the sums and counts are unbounded integers; overflow of the C++ `int` accumulators is not modelled.
- Day06.PartOne: `fuel` bounds the guard's walk. The C++ loop has no bound and does not terminate on a map where the guard walks in a cycle; the model answers `None` when the fuel runs out.
- Day06.PartOne: the string literals thrown by `part_one` ("No (or more than one) guards", "Guard is stuck") are modelled as `RuntimeError`. In the program, `main`'s `catch (const std::exception&)` does not catch a `const char*`, so the program terminates instead of reporting the error.
- Day17.Computer.RunProgram: `fuel` bounds the number of instructions. `run_program` itself has no bound, and the model answers `OutOfFuel` when the fuel runs out.
- Day17.Step: `1 << combo` is undefined behaviour in C++ for a combo value outside 0..31. The model stops there with the signal `Undefined` instead of modelling a value.
- LruCache.LRUCache: for capacity 1, eviction leaves the recycled node linked to itself. The invariant therefore keeps only the end indices and in-range `prev` links for N = 1, not the exact link structure.

## Findings

| source | as written | input that shows it | evidently intended | confidence | as-written member | corrected member |
|---|---|---|---|---|---|---|
| aoclib/aocio.hpp:84 | With preserved delimiters, `line_tokenise` reads `line.at(token_end_pos)` after a last token that runs to the end of the line, where `token_end_pos == line.size()`, and throws out_of_range. day-07 tokenises every equation line this way. | "190: 10 19" with delimiters ": " and ":" preserved | Test `token_end_pos < line.size()` before reading the delimiter, and return the four tokens | not executed | `AocIo.EquationLineAsWritten` | `AocIo.EquationLine` |
| aoclib/grid.hpp:365-377 | `push_row` checks the row's width only when `width_ != 0`. A grid built from empty rows has width 0 and height 2, so it accepts a longer row and then holds fewer cells than width × height. | Grid from ["", ""], then `push_row("abc")` | Check the width whenever the grid has rows, and throw out_of_range | not executed | `Grids.EmptyRowsThenPushAsWritten` | `Grids.EmptyRowsThenPush` |
| aoclib/prio-queue.hpp:72 | `extract_min(prio)` reads `min_elem->first` after `prio_to_elem.erase(min_elem)`, through an invalidated iterator. | Any non-empty queue, with the priority requested | Read the priority before erasing the entry | not executed | `PrioQueues.PrioQueue.ExtractMinPrioAsWritten` | `PrioQueues.PrioQueue.ExtractMinPrio` |
| day-16/day-16.cpp:48-80 | `find_cheapest_path` keeps one cost per tile, ignoring the facing. A state that reaches a tile more cheaply only by turning there is dropped. The start tile, at cost 0, can never be entered again. | The maze `#####`, `#ES.#`, `##..#`, `#####`: the end is only reachable by looping round and crossing the start facing west, at cost 4005 | Key the costs by tile and facing, and return the least cost of any walk to the end | not executed | `Day16.DeadEndAsWritten` | `Day16.DeadEndByFacing` |
