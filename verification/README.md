# Verified models of the game server's protocols and formats

A Dafny project about the parts of the server where state is shared, money changes hands or
bytes are parsed. It models them as the server computes them, with the same branches, limits and
integer widths, and proves what their callers rely on.

Every stateful component appears twice. A `class` follows the C++ object: the same fields, updated
in place by methods with the same branches and loops. Beside it stand functions on values, one per
operation, and each method is proved to compute exactly its function. The results about single
steps, about whole runs and about round trips are lemmas over those functions, so they hold of the
methods too. Money and items are counted with `Sums.Sum`, a total over finite maps.

| file | component |
|---|---|
| `otb_format.dfy`, `otb_loader.dfy`, `otb_properties.dfy` | the OTB container: an encoder, `OTB::Loader::parseTree` and `getProps`, and what they have to do with each other |
| `prop_stream.dfy`, `file_stream.dfy` | `PropWriteStream`, `PropStream`, and `FileStream` as a second reader of the same bytes |
| `node_walk.dfy` | a whole tree read with `FileStream` from node to node, as the map loader reads one |
| `money.dfy` | `Game::removeMoney` and `Game::addMoney` over nested containers |
| `market.dfy` | market offers: create, cancel, accept |
| `house_auction.dfy` | house bids and house transfers, paid from bank accounts |
| `trade.dfy` | the trade handshake between two players |
| `creature_check.dfy` | the creature scheduler with its ten lists |
| `monster_index.dfy` | the monster vector with its two indexes |
| `creature_removal.dfy` | masters, summons and the recursive removal |
| `db_insert.dfy` | batches of SQL rows |
| `experience.dfy` | experience shared by damage |
| `bosstiary.dfy` | boss points and loot bonus |
| `light_cycle.dfy` | day and night |
| `sums.dfy`, `basics.dfy` | totals over maps, optional values, integer widths |

`dafny verify dfyconfig.toml` checks the whole project.

## Where the code does less than its names say

Some properties one would expect are false of the code. The models keep the code as it is; lemmas
give the exact conditions under which the properties hold, or concrete inputs for which they fail.

- The loader refuses the seven-byte file that encodes a root without properties and children, and
  a second `parseTree` on one loader lists every child of the root twice
  (`TreeRoundTrip`, `ReparseDoubles`).
- `FileStream` reads a child's type byte with escapes and the loader does not (`ChildTypeAgrees`). It sees
  the tree that the loader sees if and only if no child has the type ESCAPE, but for children whose
  properties happen to bring it back in step: those that are ESCAPE bytes, if any, and then a START or
  END (`WalkSeesTree`, `ReadersAgreeIff`, `EscapeTypeWitness`).
- `startNode` and `endNode` look at properties unescaped: they take them for a delimiter exactly when the
  first property byte is that delimiter, and can be trusted where a node's properties end
  (`PropertyByte`, `PropertiesEnd`). A failed one does not always put the cursor back (`StartNode`, `EndNode`).
- From 4,294,970,000 gold on, `addMoney` computes a 32-bit product that wraps (`CoinsForExact`).
- A market removal that fails destroys what it had already taken, and an acceptance whose pieces the
  inbox takes only in part does not balance (`RemoveOfferItemsBooks`, `AcceptBooks`).
- `playerCyclopediaHouseBid` reports the result of `canBidHouse` and goes on, and `canBidHouse`
  itself does not look at the house's state. A bid on a house in transfer can create money, and one
  on a rented house is taken and lost with the owner's next offer (`BidConservesIff`,
  `BidOnTransferWitness`, `BidOnRentedWitness`).
- `playerCyclopediaHouseTransfer` finds the new owner in any letter case and records the name as
  typed, and `processBankAuction` compares names to the letter: accepting an offer in another spelling
  credits the new owner limit and rent (`AcceptConservesIff`, `TypedNameWitness`).
- The result of a trade's second move is ignored, so one item can change hands alone
  (`HalfTradeWitness`); and an offer made after the partner's acceptance is taken as accepted
  (`AgreedIff`, `LateOfferWitness`).
- An offer closes when something is put into it only for traders who are near enough to be told. Where
  all are, no offer ever lies in another; where they are not, one can (`RunKeeps`, `UntoldMove`).
- `playerAcceptMarketOffer` compares account objects, of which each player has its own: its check on own
  offers refuses exactly the player's own, and two characters of one account can trade with each other
  (`OwnOfferIff`, `AccountsDoNotMatter`, `OneAccountWitness`).
- A name that two monsters share can drop out of the name index when one is removed (`NameLost`).
- `DBInsert::execute` clears neither the rows nor their counted length, so `addRow` past the packet
  size sends earlier rows again (`AddThenExecute`); a row with `),(` inside can be torn apart
  (`CutsWholeIff`, `SendsWholeIff`, `TornRowWitness`).
- Three attackers at the limit of their counters overflow the damage total (`OverflowWitness`, `NeverTooMuchIff`).
- `calculateLootBonus` is one too low for half of the points of its middle tier and wraps from
  2,684,355,760 points on (`LootBonusGreatestIff`). One point more means less bonus in exactly two places:
  from 250 to 251 and where it wraps (`DropsIff`, `BonusMonotone`).

## Model

| member | source | states |
|---|---|---|
| `OtbFormat.EscapeRoundTrip` | src/io/fileloader.hpp:28-32 | escaped properties contain no bare delimiter and no dangling escape, and mean the original bytes, for every byte string |
| `OtbFormat.TreeDocRenders` | src/io/fileloader.hpp:17-33 | the encoding of every tree, whatever its type and property bytes, is a well-formed document |
| `OtbLoader.ScanKids` | src/io/fileloader.cpp:49-84 | the stack machine, in the middle of a node, consumes any run of children with ignored bytes between them and leaves exactly those children on that node |
| `OtbLoader.ScanAccepts` | src/io/fileloader.cpp:49-88 | whether the parser accepts depends only on the bytes left and the number of open nodes |
| `OtbLoader.Closes` | src/io/fileloader.cpp:49-84 | with a node open, accepted bytes always split into the rest of its properties, its children, its END and accepted bytes |
| `OtbLoader.ParsesExactlyDocuments` | src/io/fileloader.cpp:39-90 | a file is accepted if and only if its body is one well-formed document followed by bytes without a bare delimiter; the node positions are those of that document |
| `OtbLoader.ReparseDoubles` | src/io/fileloader.cpp:39-57 | parsing twice with one loader lists every child of the root twice; the result is unchanged exactly when there are none |
| `OtbProperties.LayoutSound` | src/io/fileloader.cpp:49-72 | every node range lies between its own START and type bytes and the next bare delimiter, and the ranges ascend without overlap |
| `OtbProperties.ParsedRanges` | src/io/fileloader.cpp:39-90 | for every accepted file all property ranges are in bounds, free of bare delimiters and dangling escapes, disjoint and in document order |
| `OtbProperties.UnescapeIsPayload` | src/io/fileloader.cpp:98-103 | on such ranges the copy filter with its flag and the parser that steps over escapes in pairs read the same bytes |
| `OtbProperties.TreeRoundTrip` | src/io/fileloader.cpp:15-106 | encode, open, parse, unescape gives back types, shape and properties of every tree; the loader refuses exactly the root without properties and children |
| `OtbProperties.Loader.Open` | src/io/fileloader.cpp:15-29 | refused exactly for files of at most seven bytes or a foreign identifier that is not the wildcard |
| `OtbProperties.Loader.ParseTree` | src/io/fileloader.cpp:39-90 | the loop over the bytes with its node stack computes the specified parse of the whole file, starting from the root it finds |
| `OtbProperties.Loader.GetProps` | src/io/fileloader.cpp:92-106 | false, changing nothing for the caller, exactly for a node without property bytes; otherwise the stream holds the unescaped range |
| `PropStreams.IntegerRoundTrip` | src/io/fileloader.hpp:141-148 | a value that fits its width survives being written as bytes and read |
| `PropStreams.BytesRoundTrip` | src/io/fileloader.hpp:69-87 | every byte pattern is the representation of the value it is read as |
| `PropStreams.LittleEndian` | src/io/fileloader.hpp:141-148 | byte `i` of a written integer has weight 256 to the `i` |
| `PropStreams.FieldRoundTrip` | src/io/fileloader.hpp:89-159 | one field is read back with nothing of what follows touched; strings above 65535 bytes come back empty |
| `PropStreams.TextBytes` | src/io/fileloader.hpp:150-159 | a string is written as its length in two bytes, the lower first, and its bytes |
| `PropStreams.FieldsRoundTrip` | src/io/fileloader.hpp:69-159 | every sequence of fields is read back in order with nothing left over |
| `PropStreams.ReadsOnlyWritten` | src/io/fileloader.hpp:69-108 | conversely, bytes that a sequence of reads accepts are exactly what writing the fields read produces |
| `PropStreams.PropWriteStream.Clear` | src/io/fileloader.hpp:137-139 | the buffer is empty again |
| `PropStreams.PropWriteStream.Write` | src/io/fileloader.hpp:141-148 | appends the representation of the value |
| `PropStreams.PropWriteStream.WriteString` | src/io/fileloader.hpp:150-159 | appends length and bytes, or just a zero length for a string that is too long |
| `PropStreams.PropStream.Read` | src/io/fileloader.hpp:68-87 | reads what the field specification reads; a failed read leaves the cursor in place |
| `PropStreams.PropStream.ReadString` | src/io/fileloader.hpp:89-108 | the same for strings; a failed read has still consumed the length when the length itself was there |
| `PropStreams.PropStream.Skip` | src/io/fileloader.hpp:110-117 | skips exactly when enough is left, and otherwise leaves the cursor in place |
| `FileStreams.TakeNeutral` | src/io/filestream.cpp:51-59 | taking bytes from an escaped stretch takes the same bytes from its payload, and what stays is the escaped form of the rest |
| `FileStreams.StreamAgrees` | src/io/filestream.cpp:40-105 | any sequence of integers read with escapes equals the one `PropStream` reads from the unescaped bytes; the cursor ends where the escaped form of the unread bytes begins |
| `FileStreams.NodeReadersAgree` | src/io/filestream.cpp:40-105 | the same for every node of every accepted file, ending at the end of its range when all is read |
| `FileStreams.ChildTypeAgrees` | src/io/filestream.cpp:139-151 | inside a node the two readers agree on a child's type byte if and only if it is not ESCAPE |
| `FileStreams.PropertyByte` | src/io/filestream.cpp:70-87 | for all properties and whatever follows, `getU8` inside a node returns the first byte unescaped: START if and only if that byte is START, and END if and only if it is END |
| `FileStreams.PropertiesEnd` | src/io/filestream.cpp:139-161 | at the end of the properties of every node of every accepted file, the byte that `startNode` and `endNode` look at is the START or END that the file has there |
| `FileStreams.EscapedStartMisread` | src/io/filestream.cpp:70-87 | the smallest input for a misreading: one escaped START |
| `FileStreams.FileStream.Seek` | src/io/filestream.cpp:18-24 | a position past the end leaves the cursor in place |
| `FileStreams.FileStream.CopyEscaped` | src/io/filestream.cpp:51-59 | the copy loop takes the specified bytes and advances over their escapes |
| `FileStreams.FileStream.Read` | src/io/filestream.cpp:40-68 | fails exactly when fewer bytes than the width are left, without moving; else reads with or without escapes |
| `FileStreams.FileStream.GetInt` | src/io/filestream.cpp:89-105 | escapes count exactly inside a node; 0 on failure |
| `FileStreams.FileStream.GetU8` | src/io/filestream.cpp:70-87 | one byte, agreeing with the integer reader of width 1 inside a node |
| `FileStreams.FileStream.StartNode` | src/io/filestream.cpp:139-151 | when it succeeds, what it does to depth and cursor, and for a failure exactly when the cursor is back where it was |
| `FileStreams.FileStream.EndNode` | src/io/filestream.cpp:153-161 | the same for the end of a node |
| `NodeWalk.IntsTake` | src/io/filestream.cpp:40-105 | whatever integers are read inside a node, their bytes are what the same number of escaped reads takes |
| `NodeWalk.TakeInts` | src/io/filestream.cpp:40-105 | conversely, where escaped reads take the properties, integers that use them up are read, and the cursor is behind them |
| `NodeWalk.OutOfStep` | src/io/filestream.cpp:51-87 | a reader that has stepped over the escape in front of the first property still takes the properties if and only if they are ESCAPE bytes, if any, up to a START or END |
| `NodeWalk.ChildIsThere` | src/io/filestream.cpp:70-161 | for any bytes at all: a child that is seen is what the stream holds there without its escapes, from START to END, and the rest is left |
| `NodeWalk.RootIsThere` | src/io/iomap.cpp:49-242 | the same for the root, whose START and type are read as they stand |
| `NodeWalk.WalkChildIff` | src/io/filestream.cpp:70-161 | a child is seen with its type, integers and children, and the cursor left behind it, if and only if it is walkable |
| `NodeWalk.WalkAllIff` | src/io/iomap.cpp:120-242 | a list of children is seen as it is if and only if each of them is walkable |
| `NodeWalk.WalkSeesTree` | src/io/iomap.cpp:49-242 | for every tree and all widths that use up its properties: the walk sees exactly the tree if and only if all below the root are walkable |
| `NodeWalk.ReadersAgreeIff` | src/io/iomap.cpp:49-242 | on the file written for a tree the loader shows the tree, and the walk agrees with it if and only if all below the root are walkable |
| `NodeWalk.PlainTypesWalk` | src/io/filestream.cpp:139-151 | every tree without a child of type ESCAPE is walkable |
| `NodeWalk.EscapeTypeWitness` | src/io/filestream.cpp:139-151 | a child of type ESCAPE that is not walkable, and one that is |
| `Money.CountsAgree` | src/game/game.cpp:2652-2691 | both ways of counting a player's money, the queue of `removeMoney` and the recursion of `Player::getMoney`, agree on every forest of nested containers |
| `Money.MeetsEveryItem` | src/game/game.cpp:2653-2691 | the queue of containers meets every item exactly as often as the recursion does |
| `Money.CatalogPriced` | src/game/game.cpp:2654-2691 | the money map lists exactly the stacks worth something, each once, by ascending worth |
| `Money.BreakCount` | src/game/game.cpp:2708-2714 | breaking a stack takes enough coins and none to spare: at most the stack, with change below one of its coins |
| `Money.PayConserves` | src/game/game.cpp:2703-2718 | coins before plus what stays owed are coins after plus the price plus the change |
| `Money.PayOwes` | src/game/game.cpp:2699-2718 | something stays owed exactly when all coins together fall short, and then without change |
| `Money.TouchedUpTo` | src/game/game.cpp:2703-2718 | the payment touches a prefix of the money map: all but its last stack are gone |
| `Money.CheapestFirst` | src/game/game.cpp:2703-2718 | no touched stack is worth more than an untouched one |
| `Money.OneBroken` | src/game/game.cpp:2708-2714 | at most one stack is left smaller |
| `Money.ChangeIsSmaller` | src/game/game.cpp:2708-2714 | every coin given as change is of a lower denomination than the dearest stack touched, the one it was changed from |
| `Money.CoinsForExact` | src/game/game.cpp:2750-2760 | `addMoney` creates exactly the amount if and only if the count of crystal coins fits 32 bits and what its wrapped product leaves, in hundreds truncated to 16 bits, is no more than the last four digits ask for |
| `Money.CoinsForSmall` | src/game/game.cpp:2750-2760 | up to 4,294,969,999 the coins are the canonical ones and worth the amount |
| `Money.CoinsForTooMany` | src/game/game.cpp:2750-2760 | for each of the ten thousand amounts from 4,294,970,000 on, 4,294,967,296 gold too many are created |
| `Money.CoinsArePlaced` | src/game/game.cpp:2736-2748 | coins of one kind become stacks of 1 to 100, as few as can be, each in the cylinder exactly where there is room for it and on the tile otherwise; nothing else changes |
| `Money.MoneyIsAdded` | src/game/game.cpp:2727-2761 | an amount in coins raises the worth of cylinder and tile by exactly the coins; with room for all it is all in the cylinder, with room for none all on the tile |
| `Money.SpentFacts` | src/game/game.cpp:2703-2718 | a payment takes the price less what stays owed; change goes on the tile only where the cylinder has no room for it |
| `Money.Cylinder.MoneyMapFacts` | src/game/game.cpp:2653-2691 | the money map of a cylinder is ordered, priced, complete and worth what `getMoney` counts |
| `Money.Cylinder.Visit` | src/game/game.cpp:2656-2675 | one loop over a list of items: containers to the queue, coins to map and count |
| `Money.Cylinder.Collect` | src/game/game.cpp:2653-2691 | both collection loops together yield the money map and the money of the whole forest |
| `Money.Cylinder.AddCoins` | src/game/game.cpp:2736-2748 | the stacks of 1 to 100 coins that `CoinsArePlaced` describes, in the cylinder or on its tile |
| `Money.Cylinder.AddMoney` | src/game/game.cpp:2727-2761 | wealth grows by exactly the worth of the coins; they are in the cylinder when it has room, and on its tile when it has none |
| `Money.Cylinder.BreakStack` | src/game/game.cpp:2709-2713 | change is given before the coins are taken; wealth changes by their difference, and the result is that of taking them first |
| `Money.Cylinder.SpendCoins` | src/game/game.cpp:2703-2718 | the loop over the money map lowers wealth by the price less what it returns as owed, and leaves exactly what the plan leaves, with its change placed by `addMoney` |
| `Money.Cylinder.Settle` | src/game/game.cpp:2703-2724 | coins, then bank; the guard on the balance at the end never fails |
| `Money.Cylinder.RemoveMoney` | src/game/game.cpp:2645-2725 | fails, changing nothing, exactly when coins and usable balance (summed in 64 bits) are less than the price; else coins, dropped change and bank together fall by exactly the price, by the payment plan, and no change is dropped while there is room for it |
| `Market.RemoveOfferItemsBooks` | src/game/game.cpp:9114-9172 | success takes exactly the amount, and comes exactly when stash and shown locker suffice; failure destroys all it could reach |
| `Market.StashFirst` | src/game/game.cpp:9114-9172 | the locker is touched only for what the stash does not have, and not at all when its stack count wraps to zero |
| `Market.TakesFront` | src/game/game.cpp:9140-9168 | stacks are taken whole from the front, and the next one in part when that is needed |
| `Market.FailedRemovalWitness` | src/game/game.cpp:9114-9172 | five in the stash and two in the locker: an offer for ten loses all seven |
| `Market.Fee` | src/game/game.cpp:9276-9284 | the fee is the rounded two percent, raised to 20 and lowered to 1,000,000 |
| `Market.PriceFits` | src/game/game.cpp:9221-9244 | the checked limits keep price times amount within 64 bits |
| `Market.CreateBooks` | src/game/game.cpp:9262-9353 | creating loses no gold but the fee; pieces are lost exactly when a sell offer fails after it had found some |
| `Market.CreateIff` | src/game/game.cpp:9203-9290 | an offer is put up if and only if price and amount are within their limits, the owner can pay fee or price and fee, and the pieces of a sell offer are in reach |
| `Market.CreateMoves` | src/game/game.cpp:9262-9353 | the new offer is the one asked for; its owner pays, coins before the bank, and gives the pieces; nobody else's gold, goods or offers change |
| `Market.CreateFails` | src/game/game.cpp:9203-9353 | any other request changes nothing, but for a sell offer without enough pieces, which loses those in reach |
| `Market.CancelBooks` | src/game/game.cpp:9355-9437 | a buy offer's gold always comes back; a sell offer's pieces do exactly when the inbox takes all |
| `Market.CancelIff` | src/game/game.cpp:9355-9375 | an offer is cancelled if and only if it exists and is the player's own |
| `Market.CancelMoves` | src/game/game.cpp:9375-9437 | the offer is gone; its owner gets the gold of a buy offer in the bank, or the pieces of a sell offer that arrive; nobody else's gold, goods or offers change |
| `Market.SaleBooks` | src/game/game.cpp:9545-9556 | a sale pays the seller in full while the escrow shrinks by what arrived: the exact imbalance of a partial insertion |
| `Market.PurchaseBooks` | src/game/game.cpp:9577-9602 | a purchase keeps every piece and credits the seller the effective price |
| `Market.PartialPrice` | src/game/game.cpp:9192-9195 | the recomputed 32-bit price equals the price paid if and only if everything arrived |
| `Market.AcceptBooks` | src/game/game.cpp:9439-9641 | gold is kept if and only if everything arrives or the checks fail or the pieces are missing; when pieces are kept, for each kind of offer |
| `Market.GoesIff` | src/game/game.cpp:9439-9571 | an acceptance goes through if and only if the offer exists, is not the player's own, has that many pieces, the amount is within its limits, and the buyer can pay or the seller has the pieces in reach |
| `Market.AcceptFails` | src/game/game.cpp:9439-9556 | any other changes nothing, but for a sale without enough pieces, which loses those in reach |
| `Market.SaleMoves` | src/game/game.cpp:9480-9556 | the seller is paid in full and gives the pieces, the owner gets those that arrive and the offer shrinks by them; nobody else's gold, goods or offers change, and coins between two characters of one account stay where they are |
| `Market.PurchaseMoves` | src/game/game.cpp:9561-9611 | the buyer pays in full, bank before coins, and gets the pieces that arrive; the owner is credited the price, or for a partial arrival its 32-bit product; nobody else's gold, goods or offers change |
| `Market.StepBooks` | src/game/game.cpp:9262-9641 | for every request, sensible or not: fees grow by at most the largest fee; all gold and fees balance, and the number of pieces of an item stays, exactly under conditions on the world and the request |
| `Market.RunKeepsGold` | src/game/game.cpp:9262-9641 | over every run of requests, failing ones included, in which acceptances arrive in full, all gold falls by exactly the fees |
| `Market.RunKeepsStock` | src/game/game.cpp:9262-9641 | over every run in which the pieces of an item arrive and no failed removal finds any, their number stays |
| `Market.PaysAsCylinder` | src/game/game.cpp:2693-2724 | what a cylinder's payment does to coins, tile and bank is the market's payment with that much change dropped |
| `Market.PayByCylinder` | src/game/game.cpp:2645-2725 | a call of `removeMoney` on a player, seen as a market payment |
| `Market.OwnOfferIff` | src/game/game.cpp:9439-9641 | a request that meets all other checks, with the pieces there, goes through if and only if the offer is not the player's own |
| `Market.AccountsDoNotMatter` | src/game/game.cpp:9499-9503 | which account a character belongs to decides no acceptance |
| `Market.OneAccountWitness` | src/game/game.cpp:9568-9571 | two characters of one account, one of whom buys what the other has on offer |
| `Market.MarketPlace.RemoveStacks` | src/game/game.cpp:9139-9161 | the loop over the locker empties stacks front to back until the amount is met |
| `Market.MarketPlace.RemoveOfferItems` | src/game/game.cpp:9114-9172 | computes the removal that `RemoveOfferItemsBooks` is about: 16-bit stack count, stash before locker |
| `Market.MarketPlace.RemoveMoney` | src/game/game.cpp:2693-2724 | coins before bank, wealth down by the amount, part of the change on the tile: the payment that `PaysAsCylinder` ties to the cylinder |
| `Market.MarketPlace.PlayerCreateMarketOffer` | src/game/game.cpp:9262-9353 | the checks, the removal, the payment and the new offer, in the order of the code |
| `Market.MarketPlace.PlayerCancelMarketOffer` | src/game/game.cpp:9355-9437 | computes the cancellation that `CancelIff` and `CancelMoves` are about: only the owner, who is credited |
| `Market.MarketPlace.PlayerAcceptMarketOffer` | src/game/game.cpp:9439-9641 | the checks and one of the two exchanges; two characters of one account may trade |
| `Market.MarketPlace.FinishSale` | src/game/game.cpp:9545-9634 | seller credited, buyer's inbox filled, offer reduced by what arrived |
| `Market.MarketPlace.FinishPurchase` | src/game/game.cpp:9577-9634 | bank before coins, inbox filled, seller credited, offer reduced |
| `HouseAuction.AuctionBooks` | src/game/game.cpp:11541-11571 | a payment lowers the sum of all accounts by price and rent (or by the difference to the earlier bid) and raises it by limit and rent when somebody goes by the recorded name and that is not to the letter the payer's |
| `HouseAuction.BidConservesIff` | src/game/game.cpp:11262-11325 | a bid leaves a sound world with the same wealth if and only if the house is up for auction, or it is rented out or in move-out and the bidder cannot pay, or one of the listed coincidences of a transfer holds |
| `HouseAuction.BidOnTransferRun` | src/game/game.cpp:11277-11301 | for every rented house and price: offered for it and then bid on with nothing, the price is made |
| `HouseAuction.BidOnRentedRun` | src/game/game.cpp:11277-11294 | for every rented house and bid: bid on and then offered by its owner, bid and rent are gone |
| `HouseAuction.BidOnRentedWitness` | src/game/game.cpp:11277-11294 | two requests from a sound world that lose 1050 gold |
| `HouseAuction.OfferKeepsIff` | src/game/game.cpp:11396-11418 | an offer moves no money, and leaves a world in which it can be accepted safely if and only if the name was typed to the letter or there is neither limit nor rent |
| `HouseAuction.AcceptConservesIff` | src/game/game.cpp:11485-11496 | an acceptance keeps the wealth if and only if the recorded name is the new owner's to the letter or limit and rent are zero; else it makes limit and rent |
| `HouseAuction.TypedNameRun` | src/game/game.cpp:11385-11539 | for every rented house: offered in another spelling, accepted and rejected, the new owner has gained limit and rent |
| `HouseAuction.TypedNameWitness` | src/game/game.cpp:11411-11415 | an offer to "bob", accepted and rejected, after which Bob has 50 more than before |
| `HouseAuction.BidOnTransferWitness` | src/game/game.cpp:11277-11301 | two requests from a sound world: an offer for 100 and the new owner's bid of 0 on it make 100 gold |
| `HouseAuction.BidKeeps` | src/game/game.cpp:11262-11325 | on a house that is up for auction every bid, first, raised, outbidding or too low, keeps invariant and wealth |
| `HouseAuction.UndoKeeps` | src/game/game.cpp:11446-11462 | the refund of an accepted transfer empties its escrow exactly |
| `HouseAuction.FirstBid` | src/game/game.cpp:11281-11294 | a first bid that can be paid is recorded with its bidder, and one that cannot changes nothing |
| `HouseAuction.Outbid` | src/game/game.cpp:11305-11315 | a higher bid that can be paid: who is charged, who gets limit and rent back, which fields of the house change and to what; nothing else changes, and nothing at all without the money |
| `HouseAuction.LowBid` | src/game/game.cpp:11302-11304 | a bid by somebody else that is not higher is shown and changes nothing else |
| `HouseAuction.RaisedBid` | src/game/game.cpp:11295-11301 | the bidder's new bid costs or pays back the difference and changes bid and limit; nothing else, and nothing at all for who has less than it |
| `HouseAuction.OutbidRestores` | src/game/game.cpp:11305-11315 | whoever is outbid has the account from before the bid again; the other player paid and is recorded, by name and GUID, with the new bid |
| `HouseAuction.TransferUndone` | src/game/game.cpp:11424-11539 | accept followed by reject or by cancel leaves the house with its owner and without bidder, and all accounts as they were if and only if the name was to the letter or limit and rent are zero; both undo the same |
| `HouseAuction.OfferIff` | src/game/game.cpp:11385-11422 | exactly the owner of a rented house can offer it, to somebody else; which fields record that |
| `HouseAuction.AcceptIff` | src/game/game.cpp:11468-11500 | exactly the new owner can accept, once, with price and rent in the bank |
| `HouseAuction.UndoIff` | src/game/game.cpp:11424-11539 | exactly the owner can cancel a transfer, and exactly the new owner can reject it |
| `HouseAuction.MoveOutIff` | src/game/game.cpp:11327-11383 | exactly the owner can move out of a rented house or take that back; only the state changes |
| `HouseAuction.StepKeeps` | src/game/game.cpp:11262-11571 | each step keeps the invariant and the sum of accounts and escrow, bids made on auctions and offers with the name to the letter (or no limit and rent) |
| `HouseAuction.RunConserves` | src/game/game.cpp:11262-11571 | over every run of such steps no account becomes negative, bid and holder limit agree while a bid stands, and the sum is constant |
| `HouseAuction.PaymentFits` | src/game/game.cpp:11541-11567 | while all money counted twice fits 64 bits, no unsigned sum or difference of a payment wraps, except for a bidder who bids again during a transfer |
| `HouseAuction.WrappedBid` | src/game/game.cpp:11550-11554 | a bidder's new bid during a transfer is taken modulo 2^64; every other bid is exact |
| `HouseAuction.StepSafe` | src/game/game.cpp:11262-11571 | every step keeps that bound |
| `HouseAuction.AuctionHouse.ProcessBankAuction` | src/game/game.cpp:11541-11571 | with the unsigned arithmetic of the code and its comparison of names, the exact payment or a refusal that changes nothing; only a bidder's new bid during a transfer can wrap |
| `HouseAuction.AuctionHouse.Bid` | src/game/game.cpp:11262-11325 | computes the bid that `BidConservesIff` is about, a bidder's new bid during a transfer modulo 2^64; keeps soundness and bounds during an auction |
| `HouseAuction.AuctionHouse.Transfer` | src/game/game.cpp:11385-11422 | only the owner of a rented house, to somebody else found under the typed name in any case, which is recorded as typed beside the GUID; no money moves |
| `HouseAuction.AuctionHouse.CancelTransfer` | src/game/game.cpp:11424-11466 | only the owner; the accepted price goes back by GUID |
| `HouseAuction.AuctionHouse.AcceptTransfer` | src/game/game.cpp:11468-11500 | only the new owner by GUID, once, with enough money; paid as `AcceptConservesIff` describes |
| `HouseAuction.AuctionHouse.RejectTransfer` | src/game/game.cpp:11502-11539 | only the new owner by GUID; the accepted price goes back |
| `HouseAuction.AuctionHouse.MoveOut` | src/game/game.cpp:11327-11354 | only the owner of a rented house; no money moves |
| `HouseAuction.AuctionHouse.CancelMoveOut` | src/game/game.cpp:11356-11383 | only the owner of a house in move-out; no money moves |
| `Trade.StartKeeps` | src/game/game.cpp:5072-5105 | a start keeps partners mutual, states in line with what is on offer and the registry exact, and puts no offer inside another |
| `Trade.ResetKeeps` | src/game/game.cpp:5308-5347 | closing from either side leaves both idle and takes both items off offer |
| `Trade.AcceptKeeps` | src/game/game.cpp:5107-5207 | an acceptance, alone or concluding, keeps the invariant whatever handlers and containers answer |
| `Trade.StepKeeps` | src/game/game.cpp:4931-5347 | every step, moves of items included, keeps partners, states and registry; it keeps all offers outside of one another when every trader into whose offer something is put is told |
| `Trade.RunKeeps` | src/game/game.cpp:4931-5347 | in every reachable state, whatever is moved and whoever is told of it, partners are mutual and distinct, no partner means no trade, initiated means an item and acknowledged means none, no two partners have both accepted, and the registry lists exactly the items on offer; none is ever inside another in runs in which the traders concerned are told |
| `Trade.NotifyKeeps` | src/creatures/players/player.cpp:2895-2912 | telling any players of a disturbed offer keeps the invariant, closes trades and nothing else, and leaves none of them with a disturbed offer |
| `Trade.MoveKeepsSound` | src/creatures/players/player.cpp:10929-11260 | a move keeps partners, states and registry, only closes trades, and changes what holds what exactly as the move does |
| `Trade.MoveCloses` | src/creatures/players/player.cpp:10929-11260 | whoever still has an offer after a move had it before, and was not told of anything that disturbs it |
| `Trade.MoveKeepsApart` | src/creatures/players/player.cpp:11157-11159 | no offer comes to lie in another when every trader into whose offer something is put is told |
| `Trade.UntoldMove` | src/items/containers/container.cpp:421-477 | with nobody told, one offer put into another lies in it: the condition is needed |
| `Trade.MovedNests` | src/items/containers/container.cpp:421-477 | a move of anything but into itself keeps containers nested: nothing in itself, contents of contents included, and each item in one chain |
| `Trade.OfferKeepsContents` | src/creatures/players/player.cpp:10929-11260 | in every step in which the traders disturbed are told, what stays on offer holds what it held |
| `Trade.ContentsStay` | src/creatures/players/player.cpp:10929-11260 | so over every run: while an item is on offer nothing is put into it and nothing taken out |
| `Trade.RequestIff` | src/game/game.cpp:4931-5105 | a request opens or completes a trade if and only if the item neither is, holds nor lies in anything on offer, and both sides are free or in this trade |
| `Trade.RequestOpens` | src/game/game.cpp:5072-5105 | what it changes: the item is on offer, the player has initiated, and a partner who was free is asked |
| `Trade.AcceptEnds` | src/game/game.cpp:5107-5207 | a first acceptance only stands; a second one ends the trade of both, whether the event handlers refuse it or not; any other does nothing |
| `Trade.CloseIff` | src/game/game.cpp:5308-5347 | closing leaves both sides idle and takes exactly their items off offer; without a trade it does nothing |
| `Trade.NotifySpares` | src/creatures/players/player.cpp:2895-2912 | whoever is not told of a disturbed offer, and whose partner is not, keeps the trade |
| `Trade.MoveSpares` | src/creatures/players/player.cpp:10929-11260 | a move leaves alone the trades whose offers it has nothing to do with, whoever is told of it |
| `Trade.ToldCloses` | src/creatures/players/player.cpp:10929-11260 | whoever is told that the own offer, something in it or something around it is taken, or that something is put into it, has no trade afterwards |
| `Trade.OwnershipChanges` | src/game/game.cpp:5127-5206 | ownership changes in no step but the second of two acceptances with an item from each side, checks and first move succeeding; then the first item goes to the partner, and the second comes back if its move succeeds |
| `Trade.ItemsKeepOwners` | src/game/game.cpp:5127-5206 | over every run each item keeps exactly one owner and none appears |
| `Trade.OfferIsFixed` | src/game/game.cpp:5085-5088 | an item on offer stays the same until its trade ends, and appears only by its player's own request |
| `Trade.HalfTradeWitness` | src/game/game.cpp:5169-5177 | four steps after which one player owns both items |
| `Trade.AgreedIff` | src/game/game.cpp:5072-5129 | in every run from a state without standing acceptances, a concluded exchange was accepted by both with both offers in view if and only if no offer came after the first acceptance |
| `Trade.LateOfferWitness` | src/game/game.cpp:5072-5129 | four requests after which the items have changed hands and the first player never accepted the second item |
| `Trade.TradeDesk.IsTraded` | src/game/game.cpp:5006-5040 | true exactly when the item is on offer, holds, or lies in an item that is |
| `Trade.TradeDesk.PlayerRequestTrade` | src/game/game.cpp:4931-5070 | a failed check or an item that clashes with one on offer changes nothing; the invariant is kept |
| `Trade.TradeDesk.InternalStartTrade` | src/game/game.cpp:5072-5105 | succeeds exactly for an idle or asked player whose partner is idle or already its partner |
| `Trade.TradeDesk.PlayerAcceptTrade` | src/game/game.cpp:5107-5207 | the first acceptance waits, the second concludes or closes |
| `Trade.TradeDesk.TransferItems` | src/game/game.cpp:5142-5205 | registry cleared, items moved as the answers allow, both players idle |
| `Trade.TradeDesk.InternalCloseTrade` | src/game/game.cpp:5308-5347 | nothing during a transfer, else both sides reset |
| `Trade.TradeDesk.CheckTradeStates` | src/creatures/players/player.cpp:2895-2912 | each player who is told, in order, closes the trade when the own offer is among those disturbed |
| `Trade.TradeDesk.MoveItem` | src/game/game.cpp:2020-2275 | those near the old place are told, the item moves with its contents, and those near the new place are told; the invariant is kept |
| `CreatureCheck.StepKeeps` | src/game/game.cpp:6562-6617 | every step, including death, removal and expiry, keeps each creature in at most one of the ten lists and queued insertions, and there exactly when its flag says so |
| `CreatureCheck.RunKeeps` | src/game/game.cpp:6562-6617 | the same in every reachable state |
| `CreatureCheck.Registers` | src/game/game.cpp:6562-6578 | a creature that is registered is flagged and in exactly one place: where it was, or in one new insertion at the end of the queue |
| `CreatureCheck.Unregisters` | src/game/game.cpp:6580-6585 | a creature queued or in a list is registered no more, and nothing else changes |
| `CreatureCheck.Delivers` | src/game/game.cpp:6574-6576 | the oldest insertion leaves the queue, and its creature is last in its list |
| `CreatureCheck.WhoThinks` | src/game/game.cpp:6591-6608 | exactly those in the list whose turn it is that are registered, alive and still exist |
| `CreatureCheck.Visits` | src/game/game.cpp:6591-6616 | the list keeps exactly those, the others lose their flag if they still exist, and the next list is up |
| `CreatureCheck.InsertionArrives` | src/game/game.cpp:6574-6576 | over any run, a queued creature does not think before its insertion is delivered, and is in its list from then on while it is registered and alive |
| `CreatureCheck.ThinksOnceARound` | src/game/game.cpp:6587-6617 | within ten visits a creature that stays registered and alive thinks once from the visit of its list on, and not before |
| `CreatureCheck.ThinksOnceInTen` | src/game/game.cpp:6587-6617 | exactly once in any ten consecutive visits, whatever happens between them |
| `CreatureCheck.RegisteredThinks` | src/game/game.cpp:6562-6617 | as one run from its registration: a creature in no list does not think before its insertion is delivered, then is in its list, and thinks exactly once in any ten visits |
| `CreatureCheck.ForgottenInARound` | src/game/game.cpp:6580-6613 | a creature no longer registered never thinks, and its list and flag forget it at the next visit |
| `CreatureCheck.StaysGone` | src/game/game.cpp:6580-6613 | a creature in no list that is not registered again stays out |
| `CreatureCheck.Scheduler.AddCreatureCheck` | src/game/game.cpp:6562-6578 | registered again without a second insertion when its flag is set |
| `CreatureCheck.Scheduler.RemoveCreatureCheck` | src/game/game.cpp:6580-6585 | only the registration is withdrawn; the list keeps the creature |
| `CreatureCheck.Scheduler.DeliverInsertion` | src/game/game.cpp:6574-6576 | the oldest queued insertion reaches its list |
| `CreatureCheck.Scheduler.VisitList` | src/game/game.cpp:6591-6614 | the erase loop keeps those that think, in order, and clears the flag of the others that still exist |
| `CreatureCheck.Scheduler.CheckCreatures` | src/game/game.cpp:6587-6617 | one visit: who thinks, what stays, and the next list |
| `MonsterIndex.AddedKeeps` | src/game/game.cpp:10190-10200 | adding a monster with a fresh id keeps the id index the inverse of the vector and every name entry right |
| `MonsterIndex.AddedFound` | src/game/game.cpp:10190-10200 | a new monster is found by id and by name, and all others as before |
| `MonsterIndex.RemovedKeeps` | src/game/game.cpp:10202-10225 | so does the swap with the last one, also for duplicate names and for the last one itself |
| `MonsterIndex.RemovedContents` | src/game/game.cpp:10215-10223 | exactly the removed monster leaves the vector |
| `MonsterIndex.RemovedFound` | src/game/game.cpp:10202-10225 | a removed monster is no longer found by its id, and all others are |
| `MonsterIndex.LookupIsSearch` | src/game/game.cpp:961-976 | the indexed lookup finds what a linear search finds, except for id 0 |
| `MonsterIndex.NameLost` | src/game/game.cpp:10212-10221 | after a removal every name is still indexed if and only if no other monster shares the name or the one moved into its place does |
| `MonsterIndex.RunKeeps` | src/game/game.cpp:10190-10225 | after any run of additions and removals all three |
| `MonsterIndex.Monsters.AddMonster` | src/game/game.cpp:10190-10200 | the monster is last in the vector, both indexes point at it, and they stay right for all others |
| `MonsterIndex.Monsters.RemoveMonster` | src/game/game.cpp:10202-10225 | the vector loses exactly this monster and both indexes stay right; an unknown monster changes nothing |
| `MonsterIndex.Monsters.GetMonsterByID` | src/game/game.cpp:961-976 | the result of a linear search |
| `CreatureRemoval.SetMasterKeeps` | src/creatures/creature.cpp:1234-1265 | a creature occurs among the summons of its master exactly once and of nobody else, also when the new master is the old one |
| `CreatureRemoval.SetMasterLists` | src/creatures/creature.cpp:1234-1265 | the creature leaves the old master's list and is last in the new one's; nobody else moves |
| `CreatureRemoval.OrphansKeepLinks` | src/game/game.cpp:1244-1259 | removing summons of removed creatures changes no link, so the loop never changes the list it runs over |
| `CreatureRemoval.RemoveLinks` | src/game/game.cpp:1203-1269 | a removed creature is off the list of a living master, on which the others stay in order, and has no master; no other link changes, and none at all without a living master |
| `CreatureRemoval.RemoveOnce` | src/game/game.cpp:1203-1269 | each creature newly removed is taken off its list exactly once, and nobody else |
| `CreatureRemoval.DelistedFirst` | src/game/game.cpp:1248-1259 | the creature is taken off its list before those removed with it |
| `CreatureRemoval.RemovesExactlyReached` | src/game/game.cpp:1203-1269 | on every graph of summons, cyclic ones too, exactly the creature and those reachable through living summons are removed |
| `CreatureRemoval.Creatures.SetMaster` | src/creatures/creature.cpp:1234-1265 | refused, changing nothing, exactly when there was and is no master; else the links stay exact |
| `CreatureRemoval.Creatures.RemoveCreature` | src/game/game.cpp:1203-1269 | terminates, fails exactly for a removed creature, takes one that is not off the list of a living master, and keeps the links exact |
| `CreatureRemoval.Creatures.RemoveSummons` | src/game/game.cpp:1256-1259 | the loop over the live vector of summons removes each of them, and the vector stays the same in every round |
| `DbInsert.AppendJoins` | src/database/database.cpp:402-413 | rows added one by one make the value list of all rows |
| `DbInsert.RFindIsLast` | src/database/database.cpp:451 | the search from the right finds the last boundary not behind the limit, or there is none |
| `DbInsert.BoundaryWhere` | src/database/database.cpp:451 | in any value list a boundary lies between two rows or wholly inside one |
| `DbInsert.BoundaryCloses` | src/database/database.cpp:451 | in a value list of clean rows every boundary lies between two rows |
| `DbInsert.CloseSplits` | src/database/database.cpp:455-464 | cutting there gives the value lists of the rows before and behind |
| `DbInsert.CutRows` | src/database/database.cpp:449-464 | each cut of clean rows is behind whole rows, and fails only when some row does not fit |
| `DbInsert.CutsWholeIff` | src/database/database.cpp:449-464 | a cut of arbitrary rows ends behind a whole row if and only if everything fits, or the row after the last one closed in reach has no boundary inside that is in reach too |
| `DbInsert.SendsWholeIff` | src/database/database.cpp:447-473 | arbitrary rows are sent whole, in order and each once, to a database that accepts every query, if and only if every cut on the way ends behind a whole row |
| `DbInsert.TornRow` | src/database/database.cpp:447-467 | for every query text, a row that reaches the limit with a boundary there is sent as two batches, neither of them a row |
| `DbInsert.TornRowWitness` | src/database/database.cpp:447-467 | such a row of eight megabytes |
| `DbInsert.SendsRows` | src/database/database.cpp:447-473 | clean rows are sent in order, each once, split only between rows; all are sent if and only if every row fits and every query is accepted |
| `DbInsert.TextParts` | src/database/database.cpp:466-468 | a query is the beginning of the statement, a space, the values and the update clause, in this order |
| `DbInsert.QueriesAreBounded` | src/database/database.cpp:449-467 | no query is longer than the limit plus two characters |
| `DbInsert.BoundIsReached` | src/database/database.cpp:449-467 | and some are exactly that long |
| `DbInsert.SentOnceIff` | src/database/database.cpp:393-400 | adding sends no row before its time if and only if the counted length never exceeds the packet size, or there is one row |
| `DbInsert.VolumeIs` | src/database/database.cpp:393-413 | the length counted is that of the value list without parentheses and commas |
| `DbInsert.AddedIff` | src/database/database.cpp:393-415 | whatever the database answers: below the packet size nothing is sent and the row is taken; past it all that is held is sent and the row is taken if and only if that succeeds; it is counted in any case |
| `DbInsert.AddThenExecute` | src/database/database.cpp:393-474 | from the first row to the final `execute`: which rows the queries carry, in which order, and that each is carried once exactly under that condition |
| `DbInsert.DBInsert.NextBatch` | src/database/database.cpp:449-464 | one cut, with the comma at the end of the batch dropped |
| `DbInsert.DBInsert.Execute` | src/database/database.cpp:427-474 | the loop sends the specified batches and stops at the first failure; it terminates |
| `DbInsert.DBInsert.AddRow` | src/database/database.cpp:393-415 | sends first when the counted length exceeds the packet size; a row whose sending failed is not taken but stays counted |
| `Experience.WhoGains` | src/creatures/creature.cpp:534-566 | exactly the known attackers with damage and time that still exist and are not the victim, and each the share of its damage in the wrapped total |
| `Experience.HandedOutAtMostLost` | src/creatures/creature.cpp:534-575 | while the damage total fits 32 bits, at most the lost experience is handed out |
| `Experience.NeverTooMuchIff` | src/creatures/creature.cpp:1063-1088 | for every damage map: never too much, whatever is lost and whoever is online, if and only if the total wraps to zero or the damage that can be rewarded is at most the wrapped total |
| `Experience.ShortfallBelowDealers` | src/creatures/creature.cpp:534-575 | when all dealers are rewarded, less than one point for each is not handed out |
| `Experience.OverflowWitness` | src/creatures/creature.cpp:1064-1083 | three attackers at the limit of their counters each get the whole experience |
| `Experience.AwardAdds` | src/creatures/creature.cpp:567-572 | adding a gain to any recipient raises the sum by the gain |
| `Experience.WhoReceives` | src/creatures/creature.cpp:551-572 | a gain goes to the leader of the attacker's party, or to an attacker without one; others, followers included, get nothing of it |
| `Experience.Victim.AddDamagePoints` | src/creatures/creature.cpp:1090-1108 | positive damage raises the attacker's entry and the total by itself, other damage changes nothing |
| `Experience.Victim.GetDamageRatio` | src/creatures/creature.cpp:1063-1084 | numerator and wrapped denominator are the attacker's damage and the sum over all known attackers |
| `Experience.Victim.ShareExperience` | src/creatures/creature.cpp:534-575 | each recipient gets what its attackers gained; however they are grouped, the sum is the same |
| `Bosstiary.SqrtFloor` | src/io/io_bosstiary.cpp:224 | the integer square root |
| `Bosstiary.StepsExact` | src/io/io_bosstiary.cpp:227-239 | the halved polynomial is always whole, and eight times it plus 81 is a perfect square |
| `Bosstiary.PointsMonotone` | src/io/io_bosstiary.cpp:227-239 | more bonus never costs fewer points |
| `Bosstiary.GreatestIff` | src/io/io_bosstiary.cpp:217-239 | a bonus that is paid for is the greatest exactly when the next one is not |
| `Bosstiary.LootBonusGreatestIff` | src/io/io_bosstiary.cpp:217-239 | for which of all 32-bit points the bonus is the greatest they pay for: all up to 250, those with remainder below 10 modulo 20 up to 1249, and those from 1250 below 2,684,355,760 |
| `Bosstiary.RoundTripIff` | src/io/io_bosstiary.cpp:217-239 | which bonuses survive the way to points and back, and what becomes of the others: one less between the tiers |
| `Bosstiary.DropsIff` | src/io/io_bosstiary.cpp:217-225 | for all 32-bit points, one point more means less bonus if and only if it is the step from 250 to 251 or the one to 2,684,355,760 |
| `Bosstiary.BonusMonotone` | src/io/io_bosstiary.cpp:217-225 | between any two amounts with neither step between them, more points never mean less bonus |
| `Bosstiary.NotMonotone` | src/io/io_bosstiary.cpp:219-223 | the smaller of the two places: 251 points give less bonus than 250 |
| `LightCycle.CheckKeeps` | src/game/game.cpp:8252-8291 | every check keeps the light on the timetable or in the daylight of the start; the first sunset puts it on the timetable |
| `LightCycle.RunFollows` | src/game/game.cpp:8252-8291 | in every reachable state one of the two, and from the first sunset on the timetable |
| `LightCycle.DaylightAtFirst` | src/game/game.cpp:8252-8291 | until the first sunset it is full daylight at every hour |
| `LightCycle.HourFromStart` | src/game/game.cpp:8252-8262 | the hour after any number of checks, for every starting minute |
| `LightCycle.LevelsAndStates` | src/game/game.cpp:8283-8291 | levels stay in 40..250; day and night hold exactly at the two ends |
| `LightCycle.FollowsAfterADay` | src/game/game.cpp:8252-8291 | after at most one day level and state are a function of the hour, whatever the starting minute |
| `LightCycle.Periodic` | src/game/game.cpp:8252-8291 | from then on every day is like the day before |
| `LightCycle.RampsTakeThirty` | src/game/game.cpp:8265-8291 | each ramp goes by seven and rests after exactly thirty checks |
| `LightCycle.WorldLight.constructor` | src/game/game.cpp:532-535 | a started server is in a reachable state |
| `LightCycle.WorldLight.CheckLight` | src/game/game.cpp:8252-8291 | keeps every reachable light reachable, with the hour, level and state that the lemmas are about |

## Left out

- Network protocol, client messages, sounds, effects, metrics, logging, Lua, XML, map loading and
  the database server: not modelled; event handlers and database answers are parameters.
- Node storage: the parser's pointers into lists of nodes are an explicit stack of values.
- Property buffer: a `PropStream` holds its bytes by value, so that the next `getProps` overwrites the
  buffer an earlier stream points into is not modelled. The host is little-endian.
- OtbProperties.Loader.ParseTree: the root that a failed parse leaves behind is not described.
- FileStreams.FileStream.Read: with escapes, the code indexes behind the data when an escape is the last
  byte; the model requires that the escaped bytes are there. Data is shorter than 2^32 - 1 bytes.
  `getString`, `skip` and `isProp` are not modelled.
- FileStreams.FileStream.CopyEscaped: requires the escaped bytes, as `Read` does.
- FileStreams.FileStream.GetInt: requires the escaped bytes, as `Read` does.
- FileStreams.FileStream.GetU8: requires that no ESCAPE ends the data inside a node, for the same reason.
- FileStreams.FileStream.StartNode: requires that no byte it reads is an ESCAPE that ends the data.
- FileStreams.FileStream.EndNode: requires that the byte it reads is not an ESCAPE that ends the data.
- Money.Cylinder.AddCoins: no merging, as for `AddItem`.
- Money.Cylinder.AddMoney: no merging, as for `AddItem`.
- Money.Cylinder.AddItem: `internalAddItem` can merge new coins into a stack that is already there; in
  the model each new stack is an item of its own, in the cylinder or on its tile. Removing a listed
  item always succeeds. A stack's worth is not truncated to 32 bits, which stacks of at most 100 never
  reach.
- Market.Fee: the two percent before clamping are a parameter.
- Market.GiveItems: how the inbox splits pieces into stacks is not modelled, only how many arrive; tiers,
  offer expiry, history, the coin log, exhaustion and premium checks are left out. Sums of
  purse and bank are exact integers.
- Market.MarketPlace.RemoveMoney: the market sees the payment of `Money.Cylinder.RemoveMoney` as amounts,
  coins first, then bank, with some of the change on the tile.
- HouseAuction.AfterOffer: vocation, premium and one-bid checks are one answer. The database, which is
  asked for players who are offline, is taken to find names in any letter case as the index of players
  online does. The settlement of auctions at server start is not part of this model.
- HouseAuction.StepSafe: 64-bit results are proved exact while all money counted twice, plus any
  rent, fits 64 bits; beyond that the wrapped results are not described.
- Trade.Exchange: an item's movability, capacity and handlers are answers, and so is the failing second
  move of `HalfTradeWitness`; partial moves of a stack and the trade of a house document are not modelled.
- Trade.RunKeeps: who stands near enough to be told of a move is a parameter of the step. A move changes
  no owner, also when somebody picks up another's item, and moves whole items.
- NodeWalk.WalkBody: nodes are read as integers of known widths and a known number of children; strings,
  `skip` and `isProp`, and reading on after a failure, are not modelled.
- CreatureCheck.Add: steps are whole functions, thread interleavings inside one are not modelled, and
  thinking does not call back into the scheduler.
- CreatureRemoval.Remove: tiles, spectators, zones and team finder are left out; a master that no
  longer exists counts as no master.
- MonsterIndex.Removed: names do not change while a monster is registered; `updateMonster` is left out.
- DbInsert.AddThenExecute: about a database that accepts every query; what is sent up to a refusal is what
  `DbInsert.SendsRows` and `DbInsert.DBInsert.AddRow` say, the rows of the two are not joined into one run.
- DbInsert.DBInsert.Execute: the upsert text is a parameter; how it is built from column names is left out.
- Experience.Victim.AddDamagePoints: an attacker's 32-bit counter does not overflow.
- Experience.Victim.GetDamageRatio: numerator and denominator instead of their rounded quotient.
- Experience.Victim.ShareExperience: exact fractions, as for `Gained`.
- Experience.Gained: the damage ratio is an exact fraction, so floating-point rounding is not modelled;
  an attacker's own counter does not overflow. Who did most damage and the list of killers are left out.
- Bosstiary.LootBonus: the square root is exact.
- The boss registry, forge, highscores, wheel and other tables of the server: flat case tables or reads
  of the database that would only add easy members.
