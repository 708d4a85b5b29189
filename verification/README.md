# Verified model of the game server's data structures

This project models the in-memory data structures, serializers and numeric routines of the server in
`engine/src` and proves what they promise: that items are neither lost nor duplicated and weigh what their
contents weigh, that what is saved can be loaded again, that the fast forms agree with the slow ones, and that
modifiers and damage are accounted for over whole runs. `dafny verify dfyconfig.toml` checks everything.

The parts, each with its files:

- **Streams and the OTB node format** (`Bytes`, `OtbFormat`, `OtbLoader`, `OtbInNumbers`). The explicit-stack parser is proved
  equal to a recursive definition of the format, which accepts exactly the written forms of trees. Pointers into
  growing child lists are modelled as paths, so that a dangling pointer would be a path that leads nowhere.
- **The item forest** (`ItemForest`, `ItemMoves`, `ItemStore`, `ItemWeights`). All items and containers live in one store whose
  fields the container operations change in place. Parent links, item lists and cached weights (modulo 2^32) are
  kept in step by every operation.
- **Queries and moves** (`ItemQueries`, `ItemTransfers`, `TransferLaws`, `TransferRoom`): what containers answer, and
  `Game::internalMoveItem` with destination, room, partial stacks, merging and clones.
- **Runs** (`ItemRuns`, `ItemLimits`): what every reachable state keeps, links, weights and limits.
- **Item persistence**, twice: the nested format of houses (`ItemAttributes`, `ItemTrees`, `MapItems`,
  `MapLoader`, `ItemFormat`) and the breadth-first rows of players (`PlayerRows`, `RowLinks`, `RowLoader`). Each ends with a
  method that saves and loads in one go.
- **The breadth-first iterator** (`ContainerIteration`, `ContainerCounts`), over every container of a valid forest.
- **The walk cache** (`WalkCache`, `WalkNotices`), with arbitrary positive half-widths and any run of notified changes.
- **Conditions**: damage over time (`DamageList`, `DamageRun`), the condition stream (`ConditionStream`,
  `ConditionFormat`), and the accounting of speed, skills and stats (`Modifiers`, `ModifierLaws`).
- **Spell areas** (`AreaMatrix`, `AreaCombat`, `ConeArea`, `SpellTiles`).
- **The background database queue** (`DatabaseTasks`, `DatabaseProgress`) as interleaved steps of a worker and any number of callers.
- **Base32 decoding** (`Base32`, section 6 of RFC 4648) and **the experience split** (`Experience`).

Formats, rules and answers that several definitions share are also stated in plain numbers, independently of those
definitions (`OtbInNumbers`, `ItemFormat`, `ConditionFormat`, `ItemWeights`, `TransferRoom`, `ModifierLaws`, `SpellTiles`).

Where the code does not keep what its comments and structure suggest, the model keeps the code. The exact condition
under which it does keep it is proved, and an input that fails is given where it is not plain from the condition:

- A diagonal step to the south-east or south-west shifts the wrong rows of the walk cache, because the row
  distance is used as a magnitude; every other step to a neighbouring tile is right
  (`WalkCache.SafeIffNotSouthDiagonal`, `WalkCache.SouthDiagonalSpoils`).
- A move loses an item that does not stack if and only if it names an index past the end of a container with pages,
  such as the gold pouch (`TransferLaws.ItemArrives`, `TransferLaws.DroppedAtCapacity`). Of a stack it loses the pieces
  that no other stack takes if they go past the end, and those that the eight-bit count of the other stack cannot
  hold (`TransferLaws.PiecesKept`, `TransferLaws.CoinsLost`).
- The limits in `queryAdd` are not counted for the outermost container unless the item is put into that one directly
  (`ItemLimits.CountsOutermost`, `ItemLimits.OutermostExceeds`); containers that sit in another one stay within them
  over whole runs (`ItemLimits.RunBounded`).
- Damage entries whose time the execution interval does not divide can outlive their condition
  (`DamageRun.WholeRun`, `DamageRun.SlowEntriesAreLost`).
- Damage over time costs more than its amount if and only if 1 + 2 + ... + start does not fit into it
  (`DamageList.DamageListExact`, `DamageList.SmallAmountsCostMore`); with the default start value, for
  every amount above 760 except 780 (`DamageList.DefaultStartExact`).
- Mirrored and flipped areas are off centre unless the list is square or marks no cell
  (`AreaCombat.DiagonalsTurn`, `AreaCombat.OneRowIsOff`).
- A string longer than 65535 bytes is written as the empty string (`Bytes.StringRoundTrip`).
- An OTB file that is a bare leaf is refused for being too short (`OtbLoader.LoadCanonical`).
- The database worker misses a shutdown if and only if the last notify due, of a shutdown or of an earlier `addTask`,
  falls between its state test and its wait (`DatabaseTasks.LastNotify`, `DatabaseTasks.WakeUpLost`,
  `DatabaseTasks.SleepsForever`); `stop` after a shutdown keeps a worker that has not ended yet from ending before
  another shutdown (`DatabaseTasks.StopKeepsWorker`).

## Model

| member | source | states |
|---|---|---|
| Bytes.DecodeEncode | engine/src/fileloader.h:164-168 | writing an n-byte field keeps the value modulo 256^n, as the cast of the writer does |
| Bytes.EncodeDecode | engine/src/fileloader.h:102-111 | an n-byte field read and written again gives the same bytes |
| Bytes.StringRoundTrip | engine/src/fileloader.h:113-130 | a string comes back, with nothing else consumed, if and only if its length fits 16 bits; a longer one comes back empty |
| Bytes.PropStream.Read | engine/src/fileloader.h:102-111 | succeeds exactly when enough bytes are left, returns their value, and leaves the position alone on failure |
| Bytes.PropStream.ReadRaw | engine/src/fileloader.h:102-111 | the same for a whole structure, as raw bytes |
| Bytes.PropStream.ReadString | engine/src/fileloader.h:113-130 | returns the length-prefixed text; after a short body the two length bytes stay consumed |
| Bytes.PropStream.Skip | engine/src/fileloader.h:132-139 | moves on by n bytes exactly when they are there |
| Bytes.PropWriteStream.Write | engine/src/fileloader.h:164-168 | appends the field and changes nothing before it |
| Bytes.PropWriteStream.WriteString | engine/src/fileloader.h:170-179 | appends length and text, or a zero length if the text is too long |
| OtbFormat.ParsePrinted | engine/src/fileloader.cpp:53-105 | completeness: every way of writing a tree, with properties cut anywhere by children and followed by quiet bytes, is read as a description of that tree |
| OtbFormat.ParseIsPrinted | engine/src/fileloader.cpp:53-105 | soundness: whatever is read is the written form of some well-formed tree |
| OtbFormat.EscapeRoundTrip | engine/src/fileloader.cpp:107-122 | removing the escape bytes gives back any property bytes, and escaped bytes never look like a node mark |
| OtbFormat.DescribesCanonical | engine/src/fileloader.cpp:53-122 | the description of a canonical encoding has the types, children and unescaped properties of the tree |
| OtbFormat.CanonicalRoundTrip | engine/src/fileloader.cpp:53-122 | every node tree comes back from its canonical encoding: types, children and unescaped properties |
| OtbLoader.StackIsLastChild | engine/src/fileloader.cpp:53-103 | each stack entry points at the last child of the entry below it |
| OtbLoader.NothingDangles | engine/src/fileloader.cpp:66-80 | adding a child to the node on top of the stack leaves every stored pointer valid: no pointer leads through the grown list |
| OtbLoader.StackKeepsTop | engine/src/fileloader.cpp:47-103 | changing the top node in place keeps the stack pointing at the open nodes |
| OtbLoader.StackGrows | engine/src/fileloader.cpp:66-80 | pushing the new child keeps the stack pointing at the open nodes |
| OtbLoader.PopKeepsTree | engine/src/fileloader.cpp:81-88 | closing a node changes nothing in the tree built so far |
| OtbLoader.FinishStart | engine/src/fileloader.cpp:66-80 | what remains to be read after a start mark is what the recursive reading of a child would read |
| OtbLoader.FinishEnd | engine/src/fileloader.cpp:81-88 | what remains to be read after an end mark is what the recursive reading would read after the child |
| OtbLoader.Loader.Open | engine/src/fileloader.cpp:30-45 | a loader exists exactly for files longer than the minimal size with an accepted identifier or the wildcard |
| OtbLoader.Loader.MarkPropsEnd | engine/src/fileloader.cpp:68-70 | records where the properties of the top node end, once, and changes nothing else |
| OtbLoader.Loader.EmplaceChild | engine/src/fileloader.cpp:71-77 | appends a child to the node a pointer leads to and returns the pointer to it |
| OtbLoader.Loader.OnStart | engine/src/fileloader.cpp:66-80 | a start mark opens a child of the top node and pushes it |
| OtbLoader.Loader.OnEnd | engine/src/fileloader.cpp:81-88 | an end mark closes the top node and pops it |
| OtbLoader.Loader.ParseTree | engine/src/fileloader.cpp:53-105 | the explicit-stack parser returns exactly what the recursive definition of the format returns, failures included |
| OtbLoader.Loader.GetProps | engine/src/fileloader.cpp:107-122 | true exactly for nodes with properties; the stream then holds the unescaped bytes; otherwise the stream is untouched |
| OtbLoader.ReadableIffPrinted | engine/src/fileloader.cpp:53-105 | a file is readable if and only if it is a well-formed written tree followed by quiet bytes |
| OtbLoader.LoadCanonical | engine/src/fileloader.cpp:30-105 | round trip through open and parse: the tree comes back if and only if the file is longer than the minimal size, which fails only for a bare leaf |
| OtbInNumbers.FileInNumbers | engine/src/fileloader.h:50-52 | for every tree: the file that writes it in bytes 253, 254 and 255, each of these escaped by 253, is read as that tree, and is accepted if it is longer than seven bytes and begins with the wanted identifier or four zeros |
| OtbInNumbers.LeafInNumbers | engine/src/fileloader.cpp:53-105 | id + [254, kind] + props + [255] is a leaf, for every kind and all properties below 253 |
| OtbInNumbers.MarkInNumbers | engine/src/fileloader.cpp:53-122 | a property of 253, 254 or 255 comes after a byte 253 |
| OtbInNumbers.ChildInNumbers | engine/src/fileloader.cpp:53-105 | a node with a child after its properties |
| ItemForest.AboveLinear | engine/src/container.cpp:172-179 | two holders of one object lie on one line of parents |
| ItemForest.LinkValid | engine/src/container.cpp:728-743 | linking an object that is in no container below one it does not hold keeps the links acyclic and mirrored |
| ItemForest.LinkAbove | engine/src/container.cpp:728-743 | exactly the holders of the container get hold of the linked object and of all it holds |
| ItemForest.LinkInside | engine/src/container.cpp:728-743 | every container above gains exactly the linked subtree, every other container nothing |
| ItemForest.UnlinkValid | engine/src/container.cpp:617-650 | taking an element out keeps the links acyclic and mirrored and leaves it in no container |
| ItemForest.UnlinkThenLink | engine/src/container.cpp:617-650 | linking an object again where it was unlinked gives back the same forest |
| ItemForest.SameDepths | engine/src/container.cpp:172-179 | the nesting depths are determined by the parent links |
| ItemMoves.Settle | engine/src/container.cpp:172-179 | a forest that is off by one amount along the holders of a container is right again after updateItemWeight with that amount, modulo 2^32 |
| ItemMoves.WeightIsSubtree | engine/src/container.cpp:181-184 | the cached weight of an object is the sum over its whole subtree modulo 2^32 |
| ItemMoves.AddKeeps | engine/src/container.cpp:538-568 | adding an item keeps links and every cached weight right |
| ItemMoves.RemoveKeeps | engine/src/container.cpp:617-650 | removing an item keeps links and every cached weight right |
| ItemMoves.UpdateKeeps | engine/src/container.cpp:570-591 | changing an item's id or count keeps every cached weight right |
| ItemMoves.ReplaceKeeps | engine/src/container.cpp:593-615 | replacing an item keeps links and every cached weight right |
| ItemStore.Store.constructor | engine/src/container.cpp:28-44 | an empty store is sound |
| ItemStore.Store.NewItem | engine/src/container.cpp:28-44 | a new object sits in nothing, a new container is empty and weighs nothing inside |
| ItemStore.Store.GetWeight | engine/src/container.cpp:181-184 | the weight with contents, modulo 2^32 |
| ItemStore.Store.GetThingIndex | engine/src/container.cpp:652-662 | the first index that holds the item, or -1 exactly when none does |
| ItemStore.Store.UpdateItemWeight | engine/src/container.cpp:172-179 | adds the difference to the container and to every holder of it, and to no other |
| ItemStore.Store.InternalAddThing | engine/src/container.cpp:733-743 | the item becomes the first, all weights follow |
| ItemStore.Store.AddThing | engine/src/container.cpp:538-557 | an index not below the capacity changes nothing; otherwise the item becomes the first and all weights follow |
| ItemStore.Store.AddItemBack | engine/src/container.cpp:559-568 | the item becomes the last and all weights follow |
| ItemStore.Store.UpdateThing | engine/src/container.cpp:570-591 | an item of the container gets its new id, its count as the item class stores it, and its attributes; all weights follow; anything else changes nothing |
| ItemStore.Store.ReplaceThing | engine/src/container.cpp:593-615 | the new item takes the place of the old one, which leaves, and all weights follow; a wrong index changes nothing |
| ItemStore.Store.RemoveThing | engine/src/container.cpp:617-650 | a partial count of a stack reduces it, anything else takes the item out; all weights follow |
| ItemStore.CreateKeeps | engine/src/container.cpp:28-44 | creating an object keeps links and weights right |
| ItemStore.UpdateSets | engine/src/container.cpp:570-586 | updateThing sets the id and the last eight bits of the count, unless the sub type is an attribute, and no other item changes |
| ItemStore.ReplaceInPlace | engine/src/container.cpp:593-615 | overwriting the list cell and moving the parent links is removing and inserting |
| ItemWeights.BaseWeights | engine/src/item.cpp:1157-1163 | an item weighs what its type says, unless attribute 27 says otherwise |
| ItemWeights.StackWeighs | engine/src/item.cpp:1157-1163 | a stack weighs its pieces times the weight of one, at least one, in 32 bits |
| ItemWeights.StacksAddUp | engine/src/item.cpp:1157-1163 | two stacks weigh as much as one with the pieces of both |
| ItemWeights.OthersWeigh | engine/src/item.cpp:1157-1163 | the count of items that do not stack does not matter |
| ItemWeights.WeighCoins | engine/src/item.cpp:1157-1163 | a hundred coins of weight 10 weigh 1000 |
| ItemWeights.StackMoveKeepsWeight | engine/src/game.cpp:1159-1353 | moving a stack or part of it leaves the cached weight of every common holder alone when no piece is lost, however the pieces are split and joined |
| ItemQueries.WalkClear | engine/src/container.cpp:331-361 | if the walk over the parents meets nothing, the item does not hold the container |
| ItemQueries.WalkFinds | engine/src/container.cpp:331-361 | without limits the walk finds the item if and only if it holds the container |
| ItemQueries.AllowedMeans | engine/src/container.cpp:304-387 | when queryAdd answers that nothing stands in the way, the item does not hold the container |
| ItemQueries.HoldersRefused | engine/src/container.cpp:304-387 | without limits the cycle error comes exactly for holders |
| ItemQueries.GetTopParentContainer | engine/src/container.cpp:96-114 | the container that the limits count for: the container itself, or its last holder before the outermost one |
| ItemQueries.QueryAdd | engine/src/container.cpp:304-387 | the exact answer, branch by branch, with the holding counts of both sides; no error means that the item does not hold the container |
| ItemQueries.WalkUp | engine/src/container.cpp:331-356 | the loop over the parents: what it meets first decides, and meeting nothing rules out a cycle |
| ItemQueries.CheckLimits | engine/src/container.cpp:358-386 | the limits on items and containers, counted with the container walk |
| ItemQueries.IndexOnlyForRoom | engine/src/container.cpp:344-346 | an index matters to queryAdd only where it stands for any index |
| ItemQueries.QueryMaxCount | engine/src/container.cpp:389-440 | how much there is room for, free places and joinable stacks together, and whether that is less than asked for |
| ItemQueries.CountRoomOnStacks | engine/src/container.cpp:408-419 | the loop over the stacks: what each has room for, if queryAdd allows that much |
| ItemQueries.QueryRemove | engine/src/container.cpp:442-462 | the exact answer: present, not more than there is, moveable |
| ItemQueries.QueryDestination | engine/src/container.cpp:464-531 | the exact place: one up, the container in the slot, any place for indices not shown, or the first stack to join; always a container of the store |
| ItemQueries.FindStack | engine/src/container.cpp:517-531 | the loop finds the first stack that the item can join |
| ItemTransfers.MoveConserves | engine/src/container.cpp:538-650 | removeThing followed by addThing, for an item that does not hold its target, keeps every invariant and every other item where it was; the item arrives, first, if and only if the index is below the capacity, and is otherwise in no container |
| ItemTransfers.AllowedMoveConserves | engine/src/container.cpp:304-650 | so do the two calls for whatever queryAdd allows at the given index |
| ItemTransfers.MoveInsideKeepsWeight | engine/src/container.cpp:172-179 | a container that holds both ends of a move weighs the same afterwards |
| ItemTransfers.SettlesAtOnce | engine/src/game.cpp:1172-1183 | the loop over queryDestination takes at most one step to another container, so its bound is never reached |
| ItemTransfers.Settle | engine/src/game.cpp:1172-1183 | the loop ends at the specified place |
| ItemTransfers.PlanReady | engine/src/game.cpp:1185-1251 | whatever is moved has been allowed by queryAdd for the place found, at least one piece of it goes, and what it meets lies in that place |
| ItemTransfers.MakePlan | engine/src/game.cpp:1172-1266 | all the questions in order: refused with the first error, nothing to do, or a part that goes to a place |
| ItemTransfers.HoldsTradeItem | engine/src/game.cpp:1253-1266 | true if and only if the container is the traded item or lies in it |
| ItemTransfers.TakenKeeps | engine/src/container.cpp:617-650 | taking a part of a stack or a whole item keeps links and weights right, and a whole item can then go to the target |
| ItemTransfers.CarriedKeeps | engine/src/game.cpp:1268-1308 | carrying out the plan keeps links and weights right and changes nothing but the item, the stack it joins and the clone |
| ItemTransfers.CarryOut | engine/src/game.cpp:1268-1308 | removeThing, updateThing, clone and addThing together give exactly the specified state |
| ItemTransfers.MoveItem | engine/src/game.cpp:1159-1353 | the whole of internalMoveItem between containers: a refusal and a move onto itself change nothing, anything else gives exactly the specified state and answer |
| TransferLaws.GoalSettled | engine/src/container.cpp:464-515 | the container an item goes to, in terms of the request |
| TransferLaws.IndexSettled | engine/src/container.cpp:472-500 | for an item that does not stack, the index that is left is not below the capacity if and only if the request names such an index of a container with pages, other than 254 and 255 and no slot with a container |
| TransferLaws.ItemArrives | engine/src/game.cpp:1159-1353 | an item that does not stack arrives in the container it goes to, and nothing else changes, if and only if the index does not lie past the end of a container with pages; otherwise it is in no container |
| TransferLaws.DroppedAtCapacity | engine/src/container.cpp:30-32 | an input: an item moved to index 25 of a gold pouch arrives nowhere |
| TransferLaws.PiecesConserved | engine/src/game.cpp:1268-1308 | for a stack the pieces in all containers together change exactly by those put past the end and those the joined stack cannot count |
| TransferLaws.PiecesKept | engine/src/game.cpp:1268-1308 | nothing of a stack is lost if and only if the joined stack takes all or the index is below the capacity, and the joined stack's count stays in eight bits |
| TransferLaws.NoPieceDropped | engine/src/container.cpp:403-436 | in a container without pages, within the limits, nothing is put past the end: where the stack to join lies there, only as much goes as it has room for |
| TransferLaws.CoinsLost | engine/src/game.cpp:1268-1308 | an input: of 5 coins moved to a gold pouch with 26 stacks, the last one of 99, four are gone |
| TransferLaws.JoinsFirst | engine/src/container.cpp:474-531 | a stack that goes to any place of another container goes to the first stack of its kind there with less than 100 pieces |
| TransferRoom.WalkMeetsNothing | engine/src/container.cpp:331-356 | the walk over the parents meets nothing exactly when the item does not hold the container and, where limits matter, no inbox is around it |
| TransferRoom.AllowedIff | engine/src/container.cpp:304-387 | queryAdd lets an item in exactly when the lock, pickupability, cycles, inboxes, room, the limits on items and containers, quivers and the top parent all allow it |
| TransferRoom.RefusedForRoom | engine/src/container.cpp:389-440 | a request that nothing else stands against is refused for room if and only if limits matter, the container has no pages and no free place, and the stack in the place can take nothing |
| TransferRoom.TakesFreePlace | engine/src/container.cpp:389-440 | a move that needs a place takes a free one, within the limits and without pages |
| TransferRoom.CapacityKept | engine/src/game.cpp:1159-1353 | within the limits and without pages a move never fills a container beyond its capacity |
| TransferRoom.MovesIff | engine/src/game.cpp:1159-1353 | an item that does not stack is moved if and only if it does not stay where it is, queryAdd lets it in, there is room, it lies where it is taken from, can be moved, and the place is not in a traded item |
| TransferRoom.StackMovesIff | engine/src/game.cpp:1159-1353 | a stack is moved if and only if it does not stay where it is, queryAdd lets that many in, a free place or the stack in the place takes some, between one piece and all it has would go, it lies where it is taken from, can be moved, and the place is not in a traded item |
| TransferRoom.AsMuchAsAsked | engine/src/container.cpp:404-424 | of a stack all that is asked for goes if there is a free place and no more than 100 are asked for |
| TransferRoom.AllOfIt | engine/src/container.cpp:389-440 | where limits do not matter 255 stands for the whole stack and any other number for itself |
| TransferRoom.FullTakesRest | engine/src/container.cpp:404-424 | into a full container exactly what the stack in the place has left up to 100 pieces goes |
| TransferRoom.RoomDecides | engine/src/container.cpp:389-440 | the free places take 100 pieces each and the stack in the place what it has left; what is more stays behind, and 255 stands for the whole stack |
| TransferRoom.RoomOfLists | engine/src/container.cpp:404-424 | with any index the room of the stacks adds up |
| TransferRoom.RoomOfStack | engine/src/container.cpp:404-424 | one stack has room up to 100 pieces if it is of the same kind and queryAdd lets that many in |
| TransferRoom.FillsUp | engine/src/game.cpp:1257-1303 | a part joins a stack until that has 100 pieces |
| ItemRuns.TransferKeeps | engine/src/game.cpp:1159-1353 | a move that goes through keeps acyclicity, mirrored links and right weights |
| ItemRuns.StepsFor | engine/src/container.cpp:533-743 | nothing that the operations do is left out of the runs: creating, adding in front and at the back, every move that goes through, taking out, changing and swapping any item |
| ItemRuns.StepKeeps | engine/src/container.cpp:304-650 | creating, adding, moving, removing, updating and replacing keep acyclicity, mirrored links and right weights; whatever goes into a container has been allowed by queryAdd, or holds nothing if it replaces another item |
| ItemRuns.RunKeeps | engine/src/container.cpp:304-650 | so does every finite run of operations in which queryAdd's answer is the only guard against cycles |
| ItemRuns.NoCycles | engine/src/container.cpp:304-361 | in no state of such a run does an object hold itself through others |
| ItemLimits.RootAboveHolders | engine/src/container.cpp:96-114 | the container counted for is around every container on the way that sits in another one |
| ItemLimits.CountsOutermost | engine/src/container.cpp:96-114 | the limits count for an outermost container if and only if the item is put into that one directly |
| ItemLimits.LinkCounts | engine/src/container.cpp:226-244 | linking an item adds it and what it holds to the counts of exactly the containers around |
| ItemLimits.PutBounded | engine/src/container.cpp:358-375 | putting an item that queryAdd allowed keeps every container that sits in another one within the limit |
| ItemLimits.CarriedBounded | engine/src/game.cpp:1268-1308 | so does a move, clones of stacks included |
| ItemLimits.StepBounded | engine/src/container.cpp:304-650 | so does every operation, if the limit is the same throughout |
| ItemLimits.RunBounded | engine/src/container.cpp:304-650 | in every state of a run guarded by queryAdd, a container that sits in another one holds no more items than the item limit; no more containers than the container limit, if no container replaces something else unasked |
| ItemLimits.OutermostExceeds | engine/src/container.cpp:96-114 | an input: with a limit of 2 items, an outermost container ends up with 3 |
| ItemAttributes.PayloadStable | engine/src/item.cpp:401-889 | an attribute delimits itself: what is read of it does not depend on what follows |
| ItemAttributes.ReadWritten | engine/src/item.cpp:891-903 | written attributes are read back and reading goes on with what follows |
| ItemAttributes.ReadClosed | engine/src/item.cpp:891-903 | up to and including the closing zero, and no further |
| ItemAttributes.ReadUpToContents | engine/src/container.cpp:127-136 | or up to the item count of a container, which is read as well |
| ItemAttributes.StorableLoads | engine/src/item.cpp:401-420 | an item whose count is what its attributes say comes back with that count |
| ItemAttributes.UnserializeAttr | engine/src/item.cpp:891-903 | the reading loop gives exactly the specified outcome and stream position |
| ItemTrees.RepresentsFrame | engine/src/container.cpp:733-743 | a finished tree is untouched by changes to older objects |
| ItemTrees.OneTree | engine/src/container.cpp:181-184 | an object stands for one tree at most, and the cached weight of a container is that of its contents in 32 bits |
| ItemTrees.TreeWeight | engine/src/container.cpp:181-184 | the cached weight of a tree's object is the recursive sum modulo 2^32 |
| ItemTrees.AddFront | engine/src/container.cpp:733-743 | push_front of a finished tree into a container that holds ts makes it hold the tree followed by ts, weight included |
| MapItems.LoadSaved | engine/src/iomapserialize.cpp:117-173 | for every storable tree and any bytes after it: loading after saving gives the tree and consumes exactly its bytes |
| MapItems.LoadManySaved | engine/src/iomapserialize.cpp:117-133 | contents written last to first and pushed to the front come back in their order |
| MapItems.SaveItem | engine/src/iomapserialize.cpp:234-252 | the writer produces exactly the specified bytes |
| MapLoader.Loader.Create | engine/src/iomapserialize.cpp:148-150 | a fresh object under a new handle |
| MapLoader.Loader.LoadItem | engine/src/iomapserialize.cpp:135-173 | returns whether the specified reading succeeds, adds the item to its parent, and touches nothing else |
| MapLoader.Loader.ReadItem | engine/src/iomapserialize.cpp:135-173 | reads one item up to its place under a parent |
| MapLoader.Loader.FinishItem | engine/src/iomapserialize.cpp:152-160 | attributes, then contents: the object stands for the tree that was read |
| MapLoader.Loader.LoadNext | engine/src/iomapserialize.cpp:117-133 | one round of the loop: one announced item read and pushed to the front, or the reading fails |
| MapLoader.Loader.LoadContainer | engine/src/iomapserialize.cpp:117-133 | counts down the announced items, then expects the end mark; the container holds what was read, in order and with the right weight |
| MapLoader.SaveThenLoad | engine/src/iomapserialize.cpp:117-252 | writer and reader together: the tree stands under a new object, every cached weight is the recursive sum, and what followed in the stream is left |
| ItemFormat.NumbersInBytes | engine/src/item.cpp:401-889 | numbers go least significant byte first |
| ItemFormat.FixedAttribute | engine/src/item.cpp:401-889 | every attribute of fixed size, by its number, with one, two, four, five or no bytes |
| ItemFormat.TextAttribute | engine/src/item.cpp:401-889 | every text attribute, by its number, with a length of two bytes |
| ItemFormat.UnknownAttribute | engine/src/item.cpp:401-889 | any other number is a read error |
| ItemFormat.CustomAttribute | engine/src/item.cpp:719-741 | a custom attribute: a count of eight bytes, a name, a value |
| ItemFormat.CountRead | engine/src/item.cpp:401-432 | the count is what attribute 12, 15 or 22 says, else what the item was created with, at least 1 |
| ItemFormat.StorableMeans | engine/src/item.cpp:401-889 | the items that come back: known type, readable attributes, and reading these alone gives the item |
| ItemFormat.PlainItem | engine/src/iomapserialize.cpp:234-252 | an item without attributes: two bytes of id and a zero, and in a container the number of its items after byte 23 |
| ItemFormat.Coins | engine/src/iomapserialize.cpp:234-252 | twenty coins of type 2148 are the bytes 100, 8, 15, 20, 0 |
| ItemFormat.TwoInside | engine/src/iomapserialize.cpp:234-252 | a container is written with the last of its items first |
| PlayerRows.EmitGapless | engine/src/iologindata.cpp:1093-1133 | rows of the queue carry on the numbering and name a parent written before them |
| PlayerRows.TableGapless | engine/src/iologindata.cpp:1043-1135 | the sids are 101, 102, ... without gaps, the roots first, and every row that is no root names the sid of an earlier row |
| PlayerRows.TableKnown | engine/src/iologindata.cpp:1043-1135 | every row carries a creatable item |
| PlayerRows.SavableMeans | engine/src/iologindata.cpp:1043-1135 | the trees that come back: storable items, contents only in containers |
| PlayerRows.SaveItems | engine/src/iologindata.cpp:1043-1135 | the queue-driven writer produces exactly the breadth-first table |
| PlayerRows.WriteRoots | engine/src/iologindata.cpp:1055-1091 | the first loop writes the rows of the roots and queues the containers |
| PlayerRows.WriteContents | engine/src/iologindata.cpp:1093-1133 | the inner loop writes the rows of one container and queues the containers in it |
| RowLinks.RelinkChildren | engine/src/iologindata.cpp:690-711 | linking the rows of one list last to first rebuilds the list in its order |
| RowLinks.RelinkEmit | engine/src/iologindata.cpp:690-711 | linking all rows of the queue completes every queued container |
| RowLinks.SlotsOf | engine/src/iologindata.cpp:655-711 | whatever the rows are: the slots 1 to 11 take the last item of their pid, the chests 0 to 99 all of theirs in order, and nothing else is a slot |
| RowLoader.TableRelinks | engine/src/iologindata.cpp:690-736 | linking the rows of the table in descending order rebuilds every root tree |
| RowLoader.RowRoundTrip | engine/src/iologindata.cpp:684-827 | for every forest under root numbers (1 to 11 and distinct for the inventory, 0 to 99 for depots) each slot holds the same trees in the same order with right weights |
| RowLoader.TreesUnder | engine/src/iologindata.cpp:1043-1135 | what is saved under a number: in its order the trees given for it |
| RowLoader.Loader.LoadItems | engine/src/iologindata.cpp:1617-1641 | every row with a creatable item becomes an object with its attributes; the others are skipped |
| RowLoader.Loader.LoadRow | engine/src/iologindata.cpp:1617-1641 | one row with a creatable item becomes an object with the attributes of the row |
| RowLoader.Loader.LinkItems | engine/src/iologindata.cpp:690-711 | the descending loop puts every item into its slot or its container |
| RowLoader.Loader.Attach | engine/src/iologindata.cpp:699-709 | an item whose parent row became a container is pushed to the front of it |
| RowLoader.SaveThenLoad | engine/src/iologindata.cpp:1043-1135 | writer and loader together: the same forest, sibling order and weights |
| ContainerIteration.TreeExists | engine/src/container.cpp:765-798 | everything in a valid forest is the object of a finite tree, so the walk below is defined for every container |
| ContainerIteration.ContainerIterator.constructor | engine/src/container.cpp:765-773 | the iterator starts with the whole walk ahead |
| ContainerIteration.ContainerIterator.HasNext | engine/src/container.cpp:226-233 | true exactly while something is left of the walk |
| ContainerIteration.ContainerIterator.Current | engine/src/container.cpp:775-778 | the first object of what is left |
| ContainerIteration.ContainerIterator.Advance | engine/src/container.cpp:780-798 | exactly that object is passed |
| ContainerIteration.VisitCovers | engine/src/container.cpp:765-798 | the walk over a queue of containers meets everything inside them exactly once |
| ContainerIteration.WalkCovers | engine/src/container.cpp:765-798 | iterating over a container visits every descendant exactly once |
| ContainerCounts.VisitOrder | engine/src/container.cpp:780-798 | the order is that of the breadth-first traversal of the tree |
| ContainerCounts.EmitOrder | engine/src/iologindata.cpp:1093-1133 | and, for trees in which only items of container types hold something, so is the order of the rows that saveItems writes |
| ContainerCounts.WalkMatchesRows | engine/src/container.cpp:780-798 | for such trees the walk agrees object by object with the rows of the contents |
| ContainerCounts.WalkLevels | engine/src/container.cpp:780-798 | the walk goes level by level: depths never decrease |
| ContainerCounts.GetItemHoldingCount | engine/src/container.cpp:226-233 | the number of descendants; for such trees it is the number of rows for the contents |
| ContainerCounts.GetContainerHoldingCount | engine/src/container.cpp:235-244 | the number of containers among them |
| ContainerCounts.IsHoldingItem | engine/src/container.cpp:246-254 | true if and only if the item is a descendant |
| WalkCache.StepFaithful | engine/src/creature.cpp:499-578 | for every neighbouring step: a shifted cell stands for its tile, except exactly the first and last row on a diagonal step to the south |
| WalkCache.StandsForTheSameTile | engine/src/creature.cpp:499-578 | on every other step a carried bit stands for the same tile and comes from inside the window |
| WalkCache.Creature.UpdateTileCacheAt | engine/src/creature.cpp:310-315 | one cell of the window, if the offset lies in it |
| WalkCache.Creature.UpdateTileCache | engine/src/creature.cpp:317-325 | the cell of that position, if it is in the window and on the floor |
| WalkCache.Creature.UpdateMapCache | engine/src/creature.cpp:294-308 | every cell on the map shows the world; cells off the map stay as they were because coordinates wrap around |
| WalkCache.Creature.ShiftSouth | engine/src/creature.cpp:505-509 | rows move down by one, from the last on, without losing any |
| WalkCache.Creature.ShiftNorth | engine/src/creature.cpp:516-520 | rows move up by one |
| WalkCache.Creature.ShiftWest | engine/src/creature.cpp:529-545 | from the given row on, columns move left by one |
| WalkCache.Creature.ShiftEast | engine/src/creature.cpp:552-568 | from the given row on, columns move right by one |
| WalkCache.Creature.FillRow | engine/src/creature.cpp:511-515 | reads the row that came into view |
| WalkCache.Creature.FillColumn | engine/src/creature.cpp:547-551 | reads the column that came into view |
| WalkCache.Creature.ShiftCache | engine/src/creature.cpp:499-578 | every bit after a step comes from the cell or tile the step relation names, and the tile left behind is read anew |
| WalkCache.Creature.Follow | engine/src/creature.cpp:499-578 | refinement: after a neighbouring step other than south-east and south-west the shifted window agrees with a full refresh |
| WalkCache.Creature.OnAppear | engine/src/creature.cpp:392-408 | the first appearance loads the whole window |
| WalkCache.Creature.OnOwnMove | engine/src/creature.cpp:451-579 | teleports and floor changes refresh everything; other steps shift |
| WalkCache.Creature.OnTileChanged | engine/src/creature.cpp:358-390 | after a change on a tile the window still agrees if and only if the change is one of those looked at, makes no difference to walking, or is out of view |
| WalkCache.Creature.OnOtherMove | engine/src/creature.cpp:580-592 | another creature's step keeps the agreement |
| WalkCache.Creature.Replay | engine/src/creature.cpp:358-592 | over any run of notified changes and steps the window agrees with the last world, if there was no diagonal step to the south since the last full refresh |
| WalkCache.ReliableIff | engine/src/creature.cpp:451-579 | a run can be relied upon if and only if the window was right at the start or is read again, and is read again after every diagonal walk to the south |
| WalkCache.ConsistentIff | engine/src/creature.cpp:358-592 | the runs of the theorem are all those in which every event changes no other tiles than its own and a change that is passed over makes no difference |
| WalkCache.TwoTilesMayChange | engine/src/creature.cpp:451-579 | whatever happens on the two tiles of a step is covered |
| WalkCache.Creature.GetWalkCache | engine/src/creature.cpp:327-356 | unknown exactly outside the window or without a cache, otherwise what the window, and so the world, says |
| WalkCache.SafeIffNotSouthDiagonal | engine/src/creature.cpp:499-578 | a step to a neighbouring tile anywhere on the map keeps every agreeing window agreeing, in every world, if and only if it is not a diagonal step to the south |
| WalkCache.SouthDiagonalSpoils | engine/src/creature.cpp:529-568 | for every diagonal step to the south a world that shows it: the middle cell of the first row goes wrong, or that of the last row where the first is off the map |
| WalkCache.Creature.SameCells | engine/src/creature.cpp:272-287 | the bits as a function agree with a world exactly if the window does |
| WalkNotices.NoticedIffMatters | engine/src/creature.cpp:358-390 | the notifications look at exactly the changes that can matter to a monster that looks for a path: one passed over makes no difference on any tile, and each of the others does somewhere |
| WalkNotices.NotInTheWay | engine/src/tile.cpp:482-539 | an item that blocks neither steps nor paths changes the answer of queryAdd only by being the ground |
| DamageList.CloserMeansHalfMissing | engine/src/condition.cpp:1431-1434 | the loop test means: more than half a value is missing |
| DamageList.CopiesIsLeast | engine/src/condition.cpp:1427-1434 | the closed form counts exactly the rounds of the do-while loop |
| DamageList.GenerateDamageList | engine/src/condition.cpp:1418-1436 | the nested loops produce the closed-form list, for every amount and start value, and terminate |
| DamageList.Fill | engine/src/condition.cpp:1427-1434 | the do-while loop appends exactly the counted copies |
| DamageList.DamageListShape | engine/src/condition.cpp:1418-1436 | for every amount and start: a falling list of exactly the values 1 to start, summing up to at least the amount and at most 1 + ... + start more |
| DamageList.StaysNear | engine/src/condition.cpp:1421-1435 | the same for the rest of the list, from any value on |
| DamageList.DamageListNear | engine/src/condition.cpp:1421-1435 | from start * start on, the running sum after the value v is within v / 2 of the share (start + 1 - v) / start of the amount |
| DamageList.DamageListExact | engine/src/condition.cpp:1418-1436 | for every amount and start the list sums up to exactly the amount if and only if 1 + 2 + ... + start fits into it; otherwise it costs more |
| DamageList.SmallAmountsCostMore | engine/src/condition.cpp:1418-1436 | an input for which it does not fit: amount 1 with start 2 costs 3 |
| DamageList.DefaultStartExact | engine/src/condition.cpp:1188-1198 | with the default start value the list sums up to exactly the amount if and only if that is at most 760, or 780 |
| DamageRun.DealtInOrder | engine/src/condition.cpp:1226-1264 | damages are dealt in the order of the list, none twice |
| DamageRun.AllDealt | engine/src/condition.cpp:1226-1264 | for any entries and any execution times: everything is dealt if and only if the executions needed come before the end, the last one excepted |
| DamageRun.ExactClock | engine/src/condition.cpp:135-144 | on an exact clock this is one comparison of the needed time with the time to the end |
| DamageRun.CoverageKept | engine/src/condition.cpp:1236-1263 | if the execution interval divides every entry, each execution keeps the time to the end at or above what the entries still need |
| DamageRun.NothingLost | engine/src/condition.cpp:1226-1264 | and then the whole list is dealt |
| DamageRun.EqualEntries | engine/src/condition.cpp:1148-1178 | for equal entries: nothing is lost if and only if rounding up to whole executions costs no more than one execution and the spare time |
| DamageRun.SlowEntriesAreLost | engine/src/condition.cpp:1226-1264 | four entries of 1500 ms against executions every 1000 ms lose the last |
| DamageRun.WholeRun | engine/src/condition.cpp:1207-1264 | with or without delay: everything is dealt, in order, if and only if the rounding fits |
| DamageRun.WholeAmountDealt | engine/src/condition.cpp:1180-1264 | amount, list and clock together: where nothing is lost to rounding the victim loses exactly the amount if and only if 1 + 2 + ... + start fits into it |
| DamageRun.EvenFits | engine/src/condition.cpp:1226-1264 | nothing is lost to rounding when the execution interval divides the entries |
| DamageRun.FieldsGoOn | engine/src/condition.cpp:1226-1264 | in a damage field no entry is used up: the front one starts anew when it has been dealt |
| DamageRun.ConditionDamage.ValuesAre | engine/src/condition.cpp:1180-1205 | an empty condition is filled with exactly the values -1 to minus the start value, the worst first: the start value set, the greatest damage if that is less, or a twentieth of the amount, rounded up |
| DamageRun.ConditionDamage.SetTicks | engine/src/condition.cpp:129-133 | the end time follows the ticks |
| DamageRun.ConditionDamage.AddDamage | engine/src/condition.cpp:1148-1178 | appends the rounds, none shorter than the think interval, and extends ticks and end time by them; -1 makes the condition periodic; a periodic one refuses |
| DamageRun.ConditionDamage.Init | engine/src/condition.cpp:1180-1205 | fills an empty condition with the negated generated list, and ticks and end time with the sum of the intervals |
| DamageRun.ConditionDamage.GetNextDamage | engine/src/condition.cpp:1266-1280 | the periodic damage, or the front entry, which leaves unless the condition is endless |
| DamageRun.ConditionDamage.StartCondition | engine/src/condition.cpp:1207-1224 | a condition without delay deals its first entry at once; the rest waits |
| DamageRun.ConditionDamage.ExecuteCondition | engine/src/condition.cpp:1226-1264 | one tick in each of the modes: periodic, counting down, paused in a field; and whether the condition lives on |
| DamageRun.ConditionDamage.Run | engine/src/condition.cpp:1226-1264 | a run deals exactly what the specification says and ends at the first execution past the end time |
| DamageRun.ConditionDamage.Lifetime | engine/src/condition.cpp:1180-1264 | from start to expiry the damage dealt is the generated list, complete and in order, if and only if the rounding fits |
| ConditionStream.HeaderBack | engine/src/condition.cpp:208-257 | the five header fields come back in a blank condition of the right class; a damage condition does not take over the ticks |
| ConditionStream.FieldsBack | engine/src/condition.cpp:694-721 | the fields of every simple kind come back |
| ConditionStream.EntriesBack | engine/src/condition.cpp:1106-1132 | damage entries come back in order, each adding its interval to the ticks |
| ConditionStream.SkillsBack | engine/src/condition.cpp:373-396 | the thirteen skills come back in order |
| ConditionStream.StatsBack | engine/src/condition.cpp:373-396 | and the four stats |
| ConditionStream.ConditionBack | engine/src/condition.cpp:51-127 | one condition: read up to and including its end tag, with every serialized field equal |
| ConditionStream.LoadSaved | engine/src/iologindata.cpp:496-509 | the persistent conditions come back in reverse order |
| ConditionStream.UsedUpBySaved | engine/src/iologindata.cpp:496-509 | the load loop ends at the end of the stream |
| ConditionStream.CreateCondition | engine/src/condition.cpp:208-257 | reads the header and makes a blank condition, or nothing |
| ConditionStream.UnserializeCommon | engine/src/condition.cpp:62-109 | one header property of the base class |
| ConditionStream.UnserializeDamage | engine/src/condition.cpp:1089-1116 | one property of a damage condition |
| ConditionStream.UnserializeBonus | engine/src/condition.cpp:373-381 | one property of an attribute condition |
| ConditionStream.UnserializeField | engine/src/condition.cpp:694-706 | one property of the other kinds |
| ConditionStream.Unserialize | engine/src/condition.cpp:51-60 | the property loop gives exactly the specified outcome and stream position |
| ConditionStream.Serialize | engine/src/condition.cpp:1118-1132 | the writer produces exactly the specified bytes for every kind |
| ConditionStream.Player.SaveConditions | engine/src/iologindata.cpp:1197-1204 | exactly the persistent conditions, each with its end tag |
| ConditionStream.Player.LoadConditions | engine/src/iologindata.cpp:496-509 | pushes every readable condition to the front and uses up any stream that was saved |
| ConditionStream.SaveThenLoad | engine/src/iologindata.cpp:1197-1204 | from one session to the next: the persistent conditions, reversed, with nothing of the stream left over |
| ConditionFormat.HeaderFormat | engine/src/condition.cpp:111-129 | the header in bytes: 1 type, 2 id, 3 ticks, 26 buff, 27 sub id; 254 ends a condition |
| ConditionFormat.SpeedFormat | engine/src/condition.cpp:1485-1503 | haste and paralysis: fields 11 to 15 |
| ConditionFormat.LightFormat | engine/src/condition.cpp:1751-1769 | light: fields 16 to 19 |
| ConditionFormat.RegenerationFormat | engine/src/condition.cpp:708-723 | regeneration: fields 4 to 7 |
| ConditionFormat.SoulFormat | engine/src/condition.cpp:845-854 | soul: fields 21 and 20 |
| ConditionFormat.StaminaFormat | engine/src/condition.cpp:980-988 | stamina: field 28 with two bytes, 29 with four |
| ConditionFormat.OutfitFormat | engine/src/condition.cpp:1612-1618 | an outfit is field 24 with eighteen bytes |
| ConditionFormat.DamageFormat | engine/src/condition.cpp:1118-1132 | damage: field 8, field 25, and the entries |
| ConditionFormat.EntryFormat | engine/src/condition.cpp:1118-1132 | a damage entry is field 10 with time left, value and interval |
| ConditionFormat.AttributesFormat | engine/src/condition.cpp:383-396 | attributes: thirteen skills under 22 and four stats under 23 |
| ConditionFormat.OwnerSkipped | engine/src/condition.cpp:1089-1116 | a stored owner of a damage condition is passed over |
| ConditionFormat.EntryRead | engine/src/condition.cpp:1089-1116 | field 10 adds an entry, and its interval to the ticks unless they have no end |
| ConditionFormat.CommonFields | engine/src/condition.cpp:62-109 | a header field that comes again sets its value, 254 sets nothing, and an unknown field breaks the stream |
| ConditionFormat.CommonFieldsCut | engine/src/condition.cpp:62-109 | and so does a field that is cut off |
| ConditionFormat.BlankFields | engine/src/condition.h:205-206 | a field that a stream does not hold is 0, or 1000 for the ticks of a regeneration |
| ConditionFormat.WellFormedMeans | engine/src/condition.cpp:146-206 | the conditions that come back are all those that fit the fields of the server, type by type |
| ConditionFormat.StoredOnes | engine/src/condition.cpp:267-278 | exactly the conditions with an end and the id -1 or 0 are stored |
| ConditionFormat.BackAgain | engine/src/condition.cpp:1106-1132 | a damage condition comes back with the ticks its entries add up to, everything else as it was |
| Modifiers.SumAround | engine/src/creature.cpp:1184-1213 | taking one condition out of the list or exchanging it changes each sum by its contribution |
| ModifierLaws.TypedMeans | engine/src/condition.cpp:146-206 | the conditions the operations are for: types 16 and 32 change the speed, 0x80000 carries thirteen skills and four stats, no others do either |
| ModifierLaws.MergedEnds | engine/src/condition.cpp:285-300 | merging never shortens: for effects other than speed the condition ends at the later of the two times, and the one that ends later is kept |
| ModifierLaws.EndlessStays | engine/src/condition.cpp:285-300 | a condition without end stays as it is against one that ends |
| ModifierLaws.EndlessReplaces | engine/src/condition.cpp:285-300 | a condition without end takes the place of any other |
| ModifierLaws.SpeedTakesOver | engine/src/condition.cpp:1531-1562 | a change of speed takes over the new time and change, shorter or not |
| ModifierLaws.SpeedStarted | engine/src/condition.cpp:1505-1519 | what a started speed condition adds |
| ModifierLaws.OthersAddNothing | engine/src/condition.cpp:259-265 | a condition of any other type adds nothing |
| ModifierLaws.BonusesStarted | engine/src/condition.cpp:398-482 | what a started attribute condition adds to each of thirteen skills and four stats, and that percentages never change soul points |
| ModifierLaws.StartedEnds | engine/src/condition.cpp:259-265 | a started condition ends after its ticks |
| ModifierLaws.ExecutedKeeps | engine/src/creature.cpp:1338-1356 | after an execution exactly those conditions are left that have no end or whose end has not passed |
| ModifierLaws.TickedMeans | engine/src/condition.cpp:135-150 | an execution leaves the end alone and takes the time from the ticks, down to zero at most |
| ModifierLaws.DrivesOut | engine/src/creature.cpp:1037-1044 | paralysis drives out a running haste, haste a running paralysis unless the creature is walking, and nothing else is driven out |
| ModifierLaws.NothingShortened | engine/src/creature.cpp:1184-1215 | taking in a condition other than haste and paralysis ends no condition and none sooner, and afterwards its key lasts at least as long as it would alone |
| Modifiers.Creature.ChangeSpeed | engine/src/game.cpp:5601-5606 | adds to the speed modifier |
| Modifiers.Creature.AddSkills | engine/src/condition.cpp:468-482 | adds every skill bonus once, or takes it back |
| Modifiers.Creature.AddStats | engine/src/condition.cpp:439-454 | adds every stat bonus once, or takes it back |
| Modifiers.Creature.Apply | engine/src/condition.cpp:489-518 | each modifier changes by exactly what the condition contributes |
| Modifiers.Creature.Start | engine/src/condition.cpp:398-414 | the started condition, with its numbers settled, is applied |
| Modifiers.Creature.Merge | engine/src/condition.cpp:1531-1562 | merging replaces the old contribution by the new one, or changes nothing |
| Modifiers.Creature.Find | engine/src/creature.cpp:1328-1336 | the first condition with the key |
| Modifiers.Creature.EndAt | engine/src/creature.cpp:1296-1316 | one condition leaves and its contribution with it |
| Modifiers.Creature.RemoveWhere | engine/src/creature.cpp:1228-1280 | exactly the matching conditions leave, the others stay in order, every modifier follows |
| Modifiers.Creature.RemoveType | engine/src/creature.cpp:1228-1253 | a paralysis stays on a walking creature; otherwise all of the type leave |
| Modifiers.Creature.AddCondition | engine/src/creature.cpp:1184-1213 | the exact new list: refused while walking paralysed, merged into the one with its key, or appended, with haste and paralysis driving each other out; keys stay unique and every modifier stays the sum |
| Modifiers.Creature.ExecuteConditions | engine/src/creature.cpp:1338-1356 | time passes for all conditions and exactly those whose time is up end; every modifier follows |
| Modifiers.Creature.RemoveAll | engine/src/creature.cpp:1228-1253 | ending all conditions puts speed, skills and stats back to their baseline |
| Modifiers.Creature.Run | engine/src/creature.cpp:1184-1356 | over any run: unique keys, and every modifier is its baseline plus the sum over the active conditions |
| AreaMatrix.ImageSize | engine/src/combat.cpp:1379-1458 | so no cell is lost or doubled |
| AreaMatrix.ImageThen | engine/src/combat.cpp:1410-1458 | two quarter turns are a half turn, and so on |
| AreaMatrix.ShiftMoves | engine/src/combat.cpp:1395-1409 | only an empty area looks the same after a real shift |
| AreaMatrix.MatrixArea.SetValue | engine/src/combat.h:127-129 | one cell changes |
| AreaMatrix.MirrorCells | engine/src/combat.cpp:1392-1400 | columns in reverse, rows in place |
| AreaMatrix.FlipCells | engine/src/combat.cpp:1401-1409 | rows in reverse, columns in place |
| AreaMatrix.RotateCells | engine/src/combat.cpp:1410-1455 | every write is in bounds, and every output cell is the input cell that the rotation brings there |
| AreaMatrix.CopyArea | engine/src/combat.cpp:1379-1458 | the offsets of the output are the turned offsets of the input; mirror and flip are off by the difference of columns and rows |
| AreaCombat.CreateArea | engine/src/combat.cpp:1461-1492 | the matrix shows the list, and its centre is the last cell that asks for it; entries beyond the last full row must mark nothing |
| AreaCombat.AreaCombat.SetupArea | engine/src/combat.cpp:1494-1517 | east, south and west are the northern area turned by 90, 180 and 270 degrees about the centre |
| AreaCombat.AreaCombat.SetupExtArea | engine/src/combat.cpp:1589-1617 | the diagonal areas as copies of the north-western one, the south-eastern one through the enlarged south-western one |
| AreaCombat.AreaCombat.GetList | engine/src/combat.cpp:1344-1377 | exactly the tiles in sight that the area of the direction covers around the target, in 16-bit coordinates |
| AreaCombat.QuarterTurns | engine/src/combat.cpp:1494-1517 | each straight area is the one before it turned by 90 degrees, and all four have the same number of cells |
| SpellTiles.Cast | engine/src/combat.h:203-235 | the tiles of a spell from the coordinates alone: to the north the cells as drawn, to the other sides turned by quarters around the target, on the four diagonals the extended area mirrored and flipped |
| SpellTiles.WaveToTheWest | engine/src/combat.h:203-235 | a wave of three tiles to the west of (100, 100) covers x = 97 to 99 |
| SpellTiles.DrawnOnce | engine/src/combat.cpp:1461-1492 | a list draws one area only: the same cells around the same centre, the last that asks to be it |
| SpellTiles.BesideCentre | engine/src/combat.cpp:1461-1492 | an entry 2 is a centre that is not covered itself, an entry 1 a covered cell |
| AreaCombat.DiagonalsTurn | engine/src/combat.cpp:1589-1617 | north-east, south-west and south-east are north-west mirrored, flipped and both if and only if the list is square or marks no cell |
| AreaCombat.OneRowIsOff | engine/src/combat.cpp:1589-1617 | setupExtArea for the list 3, 0 of one row: the north-eastern and south-western areas are one tile off |
| ConeArea.ConeList | engine/src/combat.cpp:1519-1549 | the loops write the cone cell by cell, for every length and spread; a negative spread that the length reaches gives no columns |
| ConeArea.ColumnsOf | engine/src/combat.cpp:1525-1528 | the number of columns, with division and remainder towards zero |
| ConeArea.SetupCone | engine/src/combat.cpp:1519-1552 | the northern area is the cone, its centre in the middle of the last row, and the other directions turn it; empty for length 0 and for a spread without columns |
| ConeArea.RowIsRun | engine/src/combat.cpp:1519-1552 | row y is a run of 2 * (floor(length / spread) - floor(y / spread)) + 1 cells around the middle column, y counted from the far end from 0, never empty |
| DatabaseTasks.ExclusiveKept | engine/src/databasetasks.cpp:34-105 | the lock is held by exactly the thread in a critical section |
| DatabaseTasks.InOrderKept | engine/src/databasetasks.cpp:44-47 | tasks popped followed by tasks pending are the tasks accepted, in order |
| DatabaseTasks.OnceEachKept | engine/src/databasetasks.cpp:44-49 | every popped task is either executed or in the hands of exactly one thread |
| DatabaseTasks.ClosedKept | engine/src/databasetasks.cpp:55-67 | after Terminated nobody is about to push |
| DatabaseTasks.FlushedKept | engine/src/databasetasks.cpp:87-105 | once shutdown has seen the list empty it stays empty |
| DatabaseTasks.WillWakeKept | engine/src/databasetasks.cpp:55-67 | whenever the worker sleeps on a waiting task a notify is still due |
| DatabaseTasks.AlwaysSafe | engine/src/databasetasks.cpp:34-105 | all of this in every state of every interleaving of any number of callers, the worker, stop and spurious wake-ups |
| DatabaseTasks.ExactlyOnceAtRest | engine/src/databasetasks.cpp:34-97 | no task is executed twice, and at rest with an empty list exactly the accepted tasks have been executed |
| DatabaseTasks.NothingAcceptedAfterShutdown | engine/src/databasetasks.cpp:55-67 | nothing is accepted after Terminated has been set, whatever follows |
| DatabaseTasks.FlushedForGood | engine/src/databasetasks.cpp:99-105 | after a shutdown has flushed, everything ever accepted has been taken, for good |
| DatabaseTasks.WorkerEnds | engine/src/databasetasks.cpp:34-53 | after the last shutdown has notified, in every interleaving in which the worker gets three turns: it ends if and only if it is not between its state test and the end of its wait |
| DatabaseTasks.LastNotifyDecides | engine/src/databasetasks.cpp:55-105 | in a flushed state with Terminated set, when one caller owes the last notify, of a shutdown or of an addTask: the worker ends if and only if that notify does not fall between its state test and its wait |
| DatabaseTasks.LastNotify | engine/src/databasetasks.cpp:55-105 | every run from a flushed state to one in which nobody owes a notify has such a last notify, whoever owes it, and it decides whether the worker ends |
| DatabaseTasks.ShutdownEndsWorker | engine/src/databasetasks.cpp:99-105 | for a shutdown about to notify while nobody else owes a notify: the worker ends if and only if the notify does not fall between its state test and its wait |
| DatabaseTasks.LeavesInTurn | engine/src/databasetasks.cpp:34-53 | a worker that has not missed the end needs no more turns than its place says |
| DatabaseTasks.WorkerAlone | engine/src/databasetasks.cpp:34-53 | the worker left alone with an empty list and a free lock, for any three or more steps: it ends if and only if it is neither waiting nor about to take the lock |
| DatabaseTasks.StopKeepsWorker | engine/src/thread_holder_base.h:37-39 | stop after a shutdown overwrites Terminated, and then no run without another shutdown ends the worker |
| DatabaseTasks.WakeUpLost | engine/src/databasetasks.cpp:34-105 | a run from the start in which shutdown notifies before the worker waits, and the worker sleeps on |
| DatabaseTasks.SleepsForever | engine/src/databasetasks.cpp:34-105 | past its state test on an empty list, and with no notify to come, the worker stays before or in its wait, whatever else is called; only a spurious wake-up or another shutdown lets it go on |
| DatabaseProgress.CallAccepted | engine/src/databasetasks.cpp:54-67 | a call of addTask that is over while the state is Running has been accepted: exactly one of its steps adds a task, with its query, last in the list, for good |
| DatabaseProgress.NothingMore | engine/src/databasetasks.cpp:54-67 | past pushing, or once the state is not Running, a call adds nothing |
| DatabaseProgress.CallAlone | engine/src/databasetasks.cpp:54-67 | left alone a call is over after five steps, its task last in the list and the worker woken if the list was empty |
| DatabaseProgress.BlockedIff | engine/src/databasetasks.cpp:34-52 | the worker is kept from the lock exactly when it neither waits nor has ended and its step changes nothing |
| DatabaseProgress.DistanceStep | engine/src/databasetasks.cpp:34-52 | every turn of the worker brings every unfinished task nearer to its end, and no step takes it away |
| DatabaseProgress.TaskExecuted | engine/src/databasetasks.cpp:34-84 | progress: unless a shutdown ends the worker, an accepted task has been executed, or is in the hands of a caller that flushes, once the worker has had five turns for each task before it and six more |
| DatabaseProgress.NotifierWakes | engine/src/databasetasks.cpp:54-67 | a worker that sleeps on a pending task is woken by the two next steps of a caller on its way |
| DatabaseProgress.FlushAlone | engine/src/databasetasks.cpp:86-96 | a flush left alone executes all pending tasks in order |
| DatabaseProgress.ShutdownAlone | engine/src/databasetasks.cpp:98-105 | a shutdown left alone sets Terminated, executes all pending tasks in order, and wakes the worker |
| Base32.OneSymbol | engine/src/iologindata.cpp:99-116 | one symbol: the unmasked 32-bit buffer keeps what is needed, and the byte taken out is the next eight bits |
| Base32.DecodeSecret | engine/src/iologindata.cpp:94-121 | a valid key gives the first floor(5n / 8) bytes of its 5-bit groups; a broken one gives nothing |
| Base32.GroupsBits | engine/src/iologindata.cpp:94-121 | unpadded encoding (section 6 of RFC 4648): the groups are the bits followed by fewer than five zeros |
| Base32.OnlyOneKey | engine/src/iologindata.cpp:94-121 | the decoded bytes are determined by that |
| Base32.KeyInNumbers | engine/src/iologindata.cpp:94-121 | the key is the number that the symbols write to base 32 (A to Z for 0 to 25, 2 to 7 for 26 to 31), to base 256, without the bits that do not fill a byte |
| Base32.RoundTrip | engine/src/iologindata.cpp:94-121 | decoding inverts unpadded encoding on all byte strings |
| Base32.DecodeEncoded | engine/src/iologindata.cpp:94-121 | the same in one call |
| Experience.AddedMeans | engine/src/creature.cpp:1015-1035 | adding to an ordered map changes one entry and keeps the order |
| Experience.FloorsOfParts | engine/src/creature.cpp:990-1013 | rounding shares down loses less than one point per attacker |
| Experience.SoleAttacker | engine/src/creature.cpp:990-1013 | a single attacker gets all of it |
| Experience.NeverTooMuch | engine/src/creature.cpp:642-669 | the experience handed out never exceeds what was lost, and falls short by less than one point per attacker if all exist and none is the victim |
| Experience.Creature.AddDamagePoints | engine/src/creature.cpp:1015-1035 | positive points are added to their attacker and to nobody else |
| Experience.Creature.DamageOf | engine/src/creature.cpp:990-1008 | the damage of one attacker and the total |
| Experience.Creature.GetGainedExperience | engine/src/creature.cpp:1010-1013 | the floor of the exact share |
| Experience.Creature.ShareExperience | engine/src/creature.cpp:642-669 | every receiver gets the shares of those it leads, who leads nobody that counts gets nothing, and the sum is at most what was lost, and falls short by less than one point per attacker if all of them exist and none is the victim |

## Left out

- SQL, network, Lua, XML, clients, spectators, effects and logging: stored rows are sequences, random numbers, clocks and verdicts of other objects are parameters.
- The row limits of the load queries and a failing insert: all rows written are read.
- Reward rows: their root numbers come from an unbounded counter, so the rule for roots does not apply.
- Objects as separate heap cells: items and containers are handles of one store, and the cylinder above a top container (tile, player, depot) is not an object of it.
- ItemQueries.QueryAdd: the verdict of a top parent outside the store (a player, say), whether the item is ammunition, and how attributes are compared are given.
- DepotChest, Inbox, DepotLocker and browse-field containers: they override parents or skip weight updates.
- Container::clone and the decay and notification calls; internalAddItem, internalRemoveItem and the other callers of the container operations.
- MapLoader.Loader.LoadItem: every item is created anew; the branch for stationary items of a tile (doors, beds) is left out, and so is saveTile.
- MapLoader.Loader.ReadItem: the same.
- ItemTransfers.MoveItem: both ends are containers of the store, so the exchange of two items, which only tiles and players ask for, and the browse-field detour are left out; no item type both stacks and holds things; a merge is taken not to change durations; the flag for a querying child container, which no caller passes, is excluded.
- ItemWeights.StackMoveKeepsWeight: item counts have eight bits, and stacks that are alike are taken to have pieces of the same weight: how attributes are compared is given.
- TransferLaws.PiecesKept: item counts have eight bits; the handle of a clone is given.
- ItemStore.Store.UpdateThing: setID and setSubType also reset attributes (decay, charges); the attributes afterwards are a parameter.
- OtbLoader.Loader.GetProps: the stream gets a copy of the bytes; in the original all streams share one buffer, which the next call overwrites.
- The rewriting of action ids into wrap ids after loading, and the attributes for opened and quick-loot containers: attributes come back as they were stored.
- ItemAttributes.StorableLoads: the meaning of attributes other than count and charges; they are opaque blocks of the lengths the reader expects, and derived item classes read no attributes of their own.
- RowLoader.Loader.LoadItems: the sid of a row serves as the handle of its object.
- WalkCache.Creature.Replay: own steps on one floor go to a neighbouring tile; a longer step without teleport is outside the claim. Updated or removed items that the notifications pass over are taken to make no difference to walking (see the next line). Cells off the map are outside it too: looking them up wraps around to the far side.
- WalkNotices.NoticedIffMatters: floor changes, teleports, zones and harmful fields are one verdict that the change leaves alone, since the notifications do not look at them; the tile is seen by a monster that pushes no creatures and is no pet.
- Floating-point rounding in damage lists, area rotation, percentages and experience: ratios are exact, the factors of quarter turns are 0, 1 and -1.
- 32-bit overflow of room and holding counts, damage, ticks, experience and modifiers: these numbers are unbounded; weights, coordinates and the base32 buffer do wrap.
- DamageRun.ConditionDamage.ExecuteCondition: pauses in damage fields and periodic damage have contracts but are outside the theorems about runs, and merging damage conditions is not modelled.
- ConditionStream.UnserializeBonus: a stream with more skills or stats than there are is taken as broken; the original does not check for it.
- ConditionStream.LoadSaved: fields that are not serialized (owner, percentages, intervals to come, disabled defence) are not part of the model's conditions; floats and outfits are raw bits.
- Modifiers.Creature.AddCondition: starting a condition does nothing but apply its modifiers, so damage, outfits, light and the defence flag are left out; percentages are turned into numbers by functions given as parameters.
- AreaCombat.CreateArea: entries beyond the last full row mark nothing; the original would write past the end of the matrix otherwise.
- AreaCombat.AreaCombat.SetupArea: the same. The radius table of setupArea(radius) would only add an easy instance.
- AreaCombat.AreaCombat.SetupExtArea: the same.
- ContainerCounts.WalkMatchesRows: rows tell containers by the type of the item, the walk by the object; the two agree when only items of container types hold something.
- ContainerCounts.EmitOrder: the same.
- DatabaseTasks.AlwaysSafe: what a task does; and a step that finds the lock taken leaves the state as it is, so no fairness is assumed.
- Experience.Creature.ShareExperience: the scaling between players of Player::getGainedExperience, and what a receiver does with its share.
