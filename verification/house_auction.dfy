/** House auctions and house transfers paid from bank accounts. */
module HouseAuction {
  import opened Basics
  import opened Sums

  /** A player's GUID. */
  type Player = nat
  type HouseId = nat

  // ---------------------------------------------------------------- names

  function LowerChar(c: char): char {
    if 'A' <= c <= 'Z' then (c as int + 32) as char else c
  }

  /** `asLowerCaseString`. */
  function Lower(s: string): string {
    if s == "" then "" else [LowerChar(s[0])] + Lower(s[1..])
  }

  /** The players' names, and the index by lower-case name. */
  datatype Names = Names(of: map<Player, string>, mapped: map<string, Player>)

  ghost predicate ValidNames(ns: Names) {
    && (forall p :: p in ns.of ==> ns.of[p] != "" && Lower(ns.of[p]) in ns.mapped && ns.mapped[Lower(ns.of[p])] == p)
    && (forall s :: s in ns.mapped ==> ns.mapped[s] in ns.of)
  }

  /** `getPlayerByName`: letter case does not matter, and the empty name is nobody's. */
  function Find(ns: Names, s: string): Option<Player> {
    if s != "" && Lower(s) in ns.mapped then Some(ns.mapped[Lower(s)]) else None
  }

  // ---------------------------------------------------------------- houses

  datatype HouseState = Available | Rented | Transfer | MoveOut

  /** A bidder is recorded twice: by name, empty for none, and by GUID. */
  datatype House = House(owner: Player, state: HouseState, bidderName: string, bidder: Option<Player>, rent: nat,
                         internalBid: nat, holderLimit: nat, highestBid: nat, accepted: bool)

  datatype World = World(banks: map<Player, int>, houses: map<HouseId, House>, names: Names)

  /** What a bidder who is outbid is credited: limit and rent. */
  function Due(h: House): nat {
    h.holderLimit + h.rent
  }

  /** What is paid for an accepted transfer, with the rent. */
  function Price(h: House): nat {
    h.internalBid + h.rent
  }

  /** What a bid costs: the rent comes with the first one. */
  function BidCost(h: House, bid: nat, replace: bool): int {
    if replace then bid - h.internalBid else h.rent + bid
  }

  /** What a house holds of somebody's money: a standing bid with rent, or an accepted transfer's
      price with rent. A transfer that is not accepted holds nothing. */
  function Escrow(h: House): int {
    if h.state == Transfer then (if h.accepted then Price(h) else 0)
    else if h.bidderName != "" then Due(h)
    else 0
  }

  ghost function Wealth(w: World): int {
    Sum(w.banks, Self) + Sum(w.houses, Escrow)
  }

  ghost predicate HouseInv(w: World, h: House)
    requires w.names.of.Keys == w.banks.Keys
  {
    && (h.bidderName == "" <==> h.bidder == None)
    && (h.bidder.Some? ==> h.bidder.value in w.banks && Find(w.names, h.bidderName) == h.bidder
                           && (h.state == Available || h.state == Transfer))
    && (h.state == Available && h.bidder.Some? ==>
          h.internalBid == h.holderLimit && Spelled(w.names, h))
    && (h.state == Transfer ==> h.bidder.Some?)
    && (h.accepted ==> h.state == Transfer)
  }

  /** The recorded name is the bidder's name to the letter. */
  predicate Spelled(ns: Names, h: House) {
    h.bidder.Some? && NamedAs(ns, h.bidder.value, h.bidderName)
  }

  predicate NamedAs(ns: Names, p: Player, s: string) {
    p in ns.of && ns.of[p] == s
  }

  /** What holds in every run in which no bid is placed outside an auction. */
  ghost predicate Base(w: World) {
    && ValidNames(w.names) && w.names.of.Keys == w.banks.Keys
    && (forall p :: p in w.banks ==> w.banks[p] >= 0)
    && (forall id :: id in w.houses ==> HouseInv(w, w.houses[id]))
  }

  /** A transfer's new owner is named to the letter, or a misspelling would cost nothing. */
  predicate Harmless(ns: Names, h: House) {
    h.state == Transfer ==> Spelled(ns, h) || Due(h) == 0
  }

  ghost predicate Inv(w: World) {
    Base(w) && forall id :: id in w.houses ==> Harmless(w.names, w.houses[id])
  }

  // ---------------------------------------------------------------- the steps

  function Debit(banks: map<Player, int>, p: Player, amount: int): map<Player, int>
    requires p in banks
  {
    banks[p := banks[p] - amount]
  }

  function Credit(banks: map<Player, int>, to: Option<Player>, amount: int): map<Player, int> {
    if to.Some? && to.value in banks then banks[to.value := banks[to.value] + amount] else banks
  }

  /** `processBankAuction`: None when the player cannot pay. Whoever is recorded under another name,
      in another spelling included, is credited the bid holder's limit and the rent. */
  function AuctionPayment(ns: Names, banks: map<Player, int>, p: Player, h: House, bid: nat, replace: bool)
    : Option<map<Player, int>>
    requires p in banks && p in ns.of
  {
    if !replace && banks[p] < h.rent + bid then None
    else if banks[p] < bid then None
    else
      var paid := Debit(banks, p, BidCost(h, bid, replace));
      Some(if h.bidderName == ns.of[p] then paid else Credit(paid, Find(ns, h.bidderName), Due(h)))
  }

  /** `playerCyclopediaHouseBid`. The result of `canBidHouse` is only reported to the client. */
  function AfterBid(w: World, p: Player, id: HouseId, bid: nat): World {
    if p !in w.banks || p !in w.names.of || id !in w.houses then w
    else
      var h, name := w.houses[id], w.names.of[p];
      if h.bidderName == "" then
        match AuctionPayment(w.names, w.banks, p, h, bid, false)
        case None => w
        case Some(banks) =>
          w.(banks := banks, houses := w.houses[id := h.(highestBid := 0, internalBid := bid, holderLimit := bid,
                                                         bidderName := name, bidder := Some(p))])
      else if h.bidderName == name then
        match AuctionPayment(w.names, w.banks, p, h, bid, true)
        case None => w
        case Some(banks) =>
          w.(banks := banks, houses := w.houses[id := h.(internalBid := bid, holderLimit := bid)])
      else if bid <= h.internalBid then
        w.(houses := w.houses[id := h.(highestBid := bid)])
      else
        match AuctionPayment(w.names, w.banks, p, h, bid, false)
        case None => w
        case Some(banks) =>
          w.(banks := banks, houses := w.houses[id := h.(highestBid := h.internalBid + 1, internalBid := bid,
                                                         holderLimit := bid, bidderName := name, bidder := Some(p))])
  }

  /** Only the owner of a rented house can offer it, and to somebody else. */
  predicate Offerable(h: House, p: Player, to: Player) {
    h.state == Rented && h.owner == p && to != p
  }

  /** `playerCyclopediaHouseTransfer` to the player found under the name as typed, which is kept as
      typed; `allowed` stands for the vocation, premium and one-bid-per-account checks. */
  function AfterOffer(w: World, p: Player, id: HouseId, typed: string, price: nat, allowed: bool): World {
    if p !in w.banks || Find(w.names, typed) == None || id !in w.houses then w
    else
      var h, to := w.houses[id], Find(w.names, typed).value;
      if !Offerable(h, p, to) || !allowed then w
      else w.(houses := w.houses[id := h.(bidderName := typed, bidder := Some(to), internalBid := price,
                                          state := Transfer)])
  }

  /** The common end of a cancelled and of a rejected transfer; the refund goes by GUID. */
  function Undo(w: World, id: HouseId): World
    requires id in w.houses
  {
    var h := w.houses[id];
    w.(banks := if h.accepted then Credit(w.banks, h.bidder, Price(h)) else w.banks,
       houses := w.houses[id := h.(bidderName := "", bidder := None, internalBid := 0, state := Rented,
                                   accepted := false)])
  }

  function AfterCancel(w: World, p: Player, id: HouseId): World {
    if id !in w.houses || w.houses[id].state != Transfer || w.houses[id].owner != p then w else Undo(w, id)
  }

  function AfterReject(w: World, p: Player, id: HouseId): World {
    if id !in w.houses || w.houses[id].state != Transfer || w.houses[id].bidder != Some(p) then w else Undo(w, id)
  }

  /** `playerCyclopediaHouseAcceptTransfer`, with the checks of `canAcceptTransferHouse`, which
      knows the new owner by GUID. */
  function AfterAccept(w: World, p: Player, id: HouseId, allowed: bool): World {
    if p !in w.banks || p !in w.names.of || id !in w.houses then w
    else
      var h := w.houses[id];
      if h.state != Transfer || h.bidder != Some(p) || !allowed || w.banks[p] < h.rent + h.internalBid || h.accepted
      then w
      else
        match AuctionPayment(w.names, w.banks, p, h, h.internalBid, false)
        case None => w
        case Some(banks) => w.(banks := banks, houses := w.houses[id := h.(accepted := true)])
  }

  function ChangeState(w: World, p: Player, id: HouseId, from: HouseState, to: HouseState): World {
    if id !in w.houses || w.houses[id].state != from || w.houses[id].owner != p then w
    else w.(houses := w.houses[id := w.houses[id].(state := to)])
  }

  datatype Action =
    | BidOn(p: Player, id: HouseId, bid: nat)
    | Offer(p: Player, id: HouseId, typed: string, price: nat, allowed: bool)
    | Cancel(p: Player, id: HouseId)
    | Accept(p: Player, id: HouseId, allowed: bool)
    | Reject(p: Player, id: HouseId)
    | Leave(p: Player, id: HouseId)
    | Stay(p: Player, id: HouseId)

  function Step(w: World, a: Action): World {
    match a
    case BidOn(p, id, bid) => AfterBid(w, p, id, bid)
    case Offer(p, id, typed, price, allowed) => AfterOffer(w, p, id, typed, price, allowed)
    case Cancel(p, id) => AfterCancel(w, p, id)
    case Accept(p, id, allowed) => AfterAccept(w, p, id, allowed)
    case Reject(p, id) => AfterReject(w, p, id)
    case Leave(p, id) => ChangeState(w, p, id, Rented, MoveOut)
    case Stay(p, id) => ChangeState(w, p, id, MoveOut, Rented)
  }

  // ---------------------------------------------------------------- conservation

  lemma Books(w: World, banks: map<Player, int>, id: HouseId, h: House)
    requires id in w.houses
    ensures Wealth(w.(banks := banks, houses := w.houses[id := h]))
         == Wealth(w) - Sum(w.banks, Self) + Sum(banks, Self) - Escrow(w.houses[id]) + Escrow(h)
  {
    SumUpdate(w.houses, Escrow, id, h);
  }

  /** The net effect of a payment on the sum of the accounts. */
  lemma AuctionBooks(ns: Names, banks: map<Player, int>, p: Player, h: House, bid: nat, replace: bool)
    requires p in banks && p in ns.of && AuctionPayment(ns, banks, p, h, bid, replace).Some?
    requires Find(ns, h.bidderName).Some? ==> Find(ns, h.bidderName).value in banks
    ensures var after := AuctionPayment(ns, banks, p, h, bid, replace).value;
            && after.Keys == banks.Keys
            && Sum(after, Self) == Sum(banks, Self) - BidCost(h, bid, replace)
                 + (if h.bidderName != ns.of[p] && Find(ns, h.bidderName).Some? then Due(h) else 0)
            && (NonNegative(banks) ==> NonNegative(after))
  {
    PaidBooks(banks, p, BidCost(h, bid, replace), if h.bidderName == ns.of[p] then None else Find(ns, h.bidderName),
              Due(h));
  }

  lemma PaidBooks(banks: map<Player, int>, p: Player, price: int, to: Option<Player>, amount: nat)
    requires p in banks && banks[p] >= price && (to.Some? ==> to.value in banks)
    ensures var after := Credit(Debit(banks, p, price), to, amount);
            && after.Keys == banks.Keys
            && Sum(after, Self) == Sum(banks, Self) - price + (if to.Some? then amount else 0)
            && (NonNegative(banks) ==> NonNegative(after))
  {
    DebitBooks(banks, p, price);
    CreditBooks(Debit(banks, p, price), to, amount);
  }

  ghost predicate NonNegative(banks: map<Player, int>) {
    forall x :: x in banks ==> banks[x] >= 0
  }

  lemma DebitBooks(banks: map<Player, int>, p: Player, amount: int)
    requires p in banks && banks[p] >= amount
    ensures Debit(banks, p, amount).Keys == banks.Keys
    ensures Sum(Debit(banks, p, amount), Self) == Sum(banks, Self) - amount
    ensures NonNegative(banks) ==> NonNegative(Debit(banks, p, amount))
  {
    SetBooks(banks, Debit(banks, p, amount), p, banks[p] - amount);
  }

  lemma SetBooks(banks: map<Player, int>, after: map<Player, int>, p: Player, v: int)
    requires p in banks && after == banks[p := v]
    ensures after.Keys == banks.Keys && Sum(after, Self) == Sum(banks, Self) - banks[p] + v
    ensures NonNegative(banks) && v >= 0 ==> NonNegative(after)
  {
    AmountUpdate(banks, p, v);
  }

  lemma CreditBooks(banks: map<Player, int>, to: Option<Player>, amount: int)
    ensures Credit(banks, to, amount).Keys == banks.Keys
    ensures Sum(Credit(banks, to, amount), Self)
         == Sum(banks, Self) + (if to.Some? && to.value in banks then amount else 0)
    ensures NonNegative(banks) && amount >= 0 ==> NonNegative(Credit(banks, to, amount))
  {
    if to.Some? && to.value in banks {
      SetBooks(banks, Credit(banks, to, amount), to.value, banks[to.value] + amount);
    }
  }

  /** When does a bid leave a sound world with the same wealth? The condition is one on the world
      and the bid: always during an auction, never when it is paid outside of one, and during a
      transfer only in the listed coincidences. */
  predicate BidIsNeutral(w: World, p: Player, id: HouseId, bid: nat) {
    p !in w.banks || p !in w.names.of || id !in w.houses ||
    var h := w.houses[id];
    match h.state
    case Available => true
    case Rented => w.banks[p] < h.rent + bid
    case MoveOut => w.banks[p] < h.rent + bid
    case Transfer =>
      if h.bidderName == w.names.of[p] then w.banks[p] < bid || h.accepted || bid == h.internalBid
      else bid <= h.internalBid || w.banks[p] < h.rent + bid
           || h.holderLimit == (if h.accepted then h.internalBid else bid)
  }

  lemma KeepsHouses(w: World, banks: map<Player, int>, id: HouseId, h: House)
    requires Base(w) && banks.Keys == w.banks.Keys && (forall p :: p in banks ==> banks[p] >= 0)
    ensures var w' := w.(banks := banks, houses := w.houses[id := h]);
            && (Base(w') <==> HouseInv(w', h))
            && (Inv(w) && HouseInv(w', h) && Harmless(w.names, h) ==> Inv(w'))
  {
    var w' := w.(banks := banks, houses := w.houses[id := h]);
    forall x | x in w'.houses && x != id
      ensures HouseInv(w', w'.houses[x])
    {
      assert HouseInv(w, w.houses[x]);
    }
    assert w'.houses[id] == h;
  }

  /** What a bid that is paid for makes of the house. */
  lemma PaidBid(w: World, p: Player, id: HouseId, bid: nat)
    requires Base(w) && p in w.banks && id in w.houses
    requires var h := w.houses[id];
             var replace := h.bidderName == w.names.of[p];
             (h.bidderName == "" || replace || bid > h.internalBid)
             && AuctionPayment(w.names, w.banks, p, h, bid, replace).Some?
    ensures var h, w' := w.houses[id], AfterBid(w, p, id, bid);
            var replace := h.bidderName == w.names.of[p];
            && (Base(w') <==> h.state == Available || h.state == Transfer)
            && (Inv(w) && Base(w') ==> Inv(w'))
            && w'.banks.Keys == w.banks.Keys
            && Wealth(w') == Wealth(w) - BidCost(h, bid, replace)
                 + (if !replace && h.bidderName != "" then Due(h) else 0)
                 - Escrow(h) + Escrow(w'.houses[id])
  {
    var h, w' := w.houses[id], AfterBid(w, p, id, bid);
    assert HouseInv(w, h);
    var replace := h.bidderName == w.names.of[p];
    var banks := AuctionPayment(w.names, w.banks, p, h, bid, replace).value;
    AuctionBooks(w.names, w.banks, p, h, bid, replace);
    Books(w, banks, id, w'.houses[id]);
    KeepsHouses(w, banks, id, w'.houses[id]);
    assert w' == w.(banks := banks, houses := w.houses[id := w'.houses[id]]);
    assert Spelled(w.names, w'.houses[id]) && Find(w.names, w.names.of[p]) == Some(p);
  }

  lemma BidConservesIff(w: World, p: Player, id: HouseId, bid: nat)
    requires Base(w)
    ensures var w' := AfterBid(w, p, id, bid);
            && (Base(w') && Wealth(w') == Wealth(w) <==> BidIsNeutral(w, p, id, bid))
            && (Inv(w) && BidIsNeutral(w, p, id, bid) ==> Inv(w'))
  {
    if p in w.banks && id in w.houses {
      var h, w' := w.houses[id], AfterBid(w, p, id, bid);
      assert HouseInv(w, h);
      var replace := h.bidderName == w.names.of[p];
      if h.bidderName != "" && !replace && bid <= h.internalBid {
        Books(w, w.banks, id, h.(highestBid := bid));
        KeepsHouses(w, w.banks, id, h.(highestBid := bid));
        assert HouseInv(w', h.(highestBid := bid));
      } else if AuctionPayment(w.names, w.banks, p, h, bid, replace).Some? {
        PaidBidIff(w, p, id, bid);
      }
    }
  }

  lemma PaidBidIff(w: World, p: Player, id: HouseId, bid: nat)
    requires Base(w) && p in w.banks && id in w.houses
    requires var h := w.houses[id];
             var replace := h.bidderName == w.names.of[p];
             (h.bidderName == "" || replace || bid > h.internalBid)
             && AuctionPayment(w.names, w.banks, p, h, bid, replace).Some?
    ensures var w' := AfterBid(w, p, id, bid);
            && (Base(w') && Wealth(w') == Wealth(w) <==> BidIsNeutral(w, p, id, bid))
            && (Inv(w) && BidIsNeutral(w, p, id, bid) ==> Inv(w'))
  {
    assert HouseInv(w, w.houses[id]);
    PaidBid(w, p, id, bid);
  }

  /** On a house that is up for auction, every bid. */
  lemma BidKeeps(w: World, p: Player, id: HouseId, bid: nat)
    requires Inv(w) && (id in w.houses ==> w.houses[id].state == Available)
    ensures Inv(AfterBid(w, p, id, bid)) && Wealth(AfterBid(w, p, id, bid)) == Wealth(w)
  {
    BidConservesIff(w, p, id, bid);
  }

  /** Undoing a transfer refunds exactly what the house holds. */
  lemma UndoKeeps(w: World, id: HouseId)
    requires Base(w) && id in w.houses && w.houses[id].state == Transfer
    ensures Base(Undo(w, id)) && Wealth(Undo(w, id)) == Wealth(w) && (Inv(w) ==> Inv(Undo(w, id)))
  {
    UndoBooks(w, id);
    var w' := Undo(w, id);
    KeepsHouses(w, w'.banks, id, w'.houses[id]);
    assert HouseInv(w', w'.houses[id]);
  }

  lemma TransferBidder(w: World, id: HouseId)
    requires Base(w) && id in w.houses && w.houses[id].state == Transfer
    ensures w.houses[id].bidder.Some? && w.houses[id].bidder.value in w.banks && w.houses[id].bidderName != ""
  {
    assert HouseInv(w, w.houses[id]);
  }

  lemma UndoBooks(w: World, id: HouseId)
    requires Base(w) && id in w.houses && w.houses[id].state == Transfer
    ensures var w' := Undo(w, id);
            && w'.banks.Keys == w.banks.Keys && (forall p :: p in w'.banks ==> w'.banks[p] >= 0)
            && w'.houses == w.houses[id := w'.houses[id]] && Wealth(w') == Wealth(w)
  {
    var h, w' := w.houses[id], Undo(w, id);
    var amount := if h.accepted then Price(h) else 0;
    TransferBidder(w, id);
    RefundBooks(w, h.bidder, amount);
    assert w'.banks == Credit(w.banks, h.bidder, amount);
    Books(w, w'.banks, id, w'.houses[id]);
  }

  lemma RefundBooks(w: World, to: Option<Player>, amount: nat)
    requires Base(w) && to.Some? && to.value in w.banks
    ensures var banks := Credit(w.banks, to, amount);
            && banks.Keys == w.banks.Keys && (forall p :: p in banks ==> banks[p] >= 0)
            && Sum(banks, Self) == Sum(w.banks, Self) + amount && (amount == 0 ==> banks == w.banks)
  {
    CreditBooks(w.banks, to, amount);
  }

  /** An offer leaves a world in which acceptance is safe exactly when the new owner's name was typed
      to the letter, or there is neither limit nor rent. */
  lemma OfferKeepsIff(w: World, p: Player, id: HouseId, typed: string, price: nat, allowed: bool)
    requires Inv(w)
    ensures var w' := AfterOffer(w, p, id, typed, price, allowed);
            && Base(w') && Wealth(w') == Wealth(w)
            && (w' != w ==> (Inv(w') <==> w.names.of[Find(w.names, typed).value] == typed
                                          || Due(w.houses[id]) == 0))
  {
    var w' := AfterOffer(w, p, id, typed, price, allowed);
    if w' != w {
      var h' := w'.houses[id];
      assert HouseInv(w, w.houses[id]);
      Books(w, w.banks, id, h');
      KeepsHouses(w, w.banks, id, h');
      assert w' == w.(banks := w.banks, houses := w.houses[id := h']);
      assert HouseInv(w', h');
      assert Inv(w') ==> Harmless(w'.names, w'.houses[id]);
    }
  }

  /** An acceptance makes the limit and the rent out of nothing, unless the new owner's name was
      typed to the letter. */
  lemma AcceptConservesIff(w: World, p: Player, id: HouseId, allowed: bool)
    requires Base(w) && AfterAccept(w, p, id, allowed) != w
    ensures var w', h := AfterAccept(w, p, id, allowed), w.houses[id];
            && Base(w') && (Inv(w) ==> Inv(w'))
            && Wealth(w') == Wealth(w) + (if Spelled(w.names, h) then 0 else Due(h))
            && (Wealth(w') == Wealth(w) <==> Harmless(w.names, h))
  {
    var w', h := AfterAccept(w, p, id, allowed), w.houses[id];
    assert HouseInv(w, h);
    AuctionBooks(w.names, w.banks, p, h, h.internalBid, false);
    Books(w, w'.banks, id, w'.houses[id]);
    KeepsHouses(w, w'.banks, id, w'.houses[id]);
    assert HouseInv(w', w'.houses[id]);
  }

  /** A house is bid on only while it is up for auction, and offered only to a new owner whose name is
      typed to the letter, unless there is neither limit nor rent. The original checks neither:
      see `BidConservesIff` and `AcceptConservesIff`. */
  predicate Guarded(w: World, a: Action) {
    match a
    case BidOn(p, id, bid) => id in w.houses ==> w.houses[id].state == Available
    case Offer(p, id, typed, price, allowed) =>
      id in w.houses && Find(w.names, typed).Some?
      && Offerable(w.houses[id], p, Find(w.names, typed).value) && allowed ==>
        NamedAs(w.names, Find(w.names, typed).value, typed) || Due(w.houses[id]) == 0
    case _ => true
  }

  /** Every step keeps the invariant and the total of accounts and escrow. */
  lemma StepKeeps(w: World, a: Action)
    requires Inv(w) && Guarded(w, a)
    ensures Inv(Step(w, a)) && Wealth(Step(w, a)) == Wealth(w)
  {
    match a
    case BidOn(p, id, bid) => BidKeeps(w, p, id, bid);
    case Cancel(p, id) =>
      if AfterCancel(w, p, id) != w { UndoKeeps(w, id); }
    case Reject(p, id) =>
      if AfterReject(w, p, id) != w { UndoKeeps(w, id); }
    case Offer(p, id, typed, price, allowed) => OfferKeepsIff(w, p, id, typed, price, allowed);
    case Accept(p, id, allowed) =>
      if AfterAccept(w, p, id, allowed) != w { AcceptConservesIff(w, p, id, allowed); }
    case Leave(p, id) => StateKeeps(w, p, id, Rented, MoveOut);
    case Stay(p, id) => StateKeeps(w, p, id, MoveOut, Rented);
  }

  lemma StateKeeps(w: World, p: Player, id: HouseId, from: HouseState, to: HouseState)
    requires Inv(w) && {from, to} == {Rented, MoveOut}
    ensures var w' := ChangeState(w, p, id, from, to); Inv(w') && Wealth(w') == Wealth(w)
  {
    var w' := ChangeState(w, p, id, from, to);
    if w' != w {
      assert HouseInv(w, w.houses[id]);
      assert from in {Rented, MoveOut} && to in {Rented, MoveOut};
      Books(w, w.banks, id, w'.houses[id]);
      KeepsHouses(w, w.banks, id, w'.houses[id]);
      assert HouseInv(w', w'.houses[id]);
    }
  }

  // ---------------------------------------------------------------- what a step undoes

  /** Whoever is outbid has the account from before the bid again, and the other bidder is recorded. */
  lemma OutbidRestores(w: World, p: Player, q: Player, id: HouseId, bid1: nat, bid2: nat)
    requires Base(w) && id in w.houses && w.houses[id].bidder == None && p in w.banks && q in w.banks && p != q
    requires w.banks[p] >= w.houses[id].rent + bid1 && w.banks[q] >= w.houses[id].rent + bid2 && bid1 < bid2
    ensures var w1 := AfterBid(w, p, id, bid1);
            var w2 := AfterBid(w1, q, id, bid2);
            && id in w1.houses && w1.houses[id].bidder == Some(p) && w1.houses[id].bidderName == w.names.of[p]
            && id in w2.houses && w2.houses[id].bidder == Some(q) && w2.houses[id].bidderName == w.names.of[q]
            && w2.houses[id].internalBid == w2.houses[id].holderLimit == bid2
            && w2.banks == w.banks[q := w.banks[q] - (w.houses[id].rent + bid2)]
  {
    var h, w1 := w.houses[id], AfterBid(w, p, id, bid1);
    assert HouseInv(w, h);
    FirstBid(w, p, id, bid1);
    OutbidBanks(w, w1, p, q, id, bid1, bid2);
  }

  lemma OutbidBanks(w: World, w1: World, p: Player, q: Player, id: HouseId, bid1: nat, bid2: nat)
    requires ValidNames(w.names) && p in w.names.of && q in w.names.of && p in w.banks && q in w.banks && p != q
    requires id in w.houses && id in w1.houses && w1.names == w.names
    requires w1.banks == Debit(w.banks, p, w.houses[id].rent + bid1)
    requires var h1 := w1.houses[id];
             && h1.bidderName == w.names.of[p] && h1.bidder == Some(p) && h1.internalBid == bid1 < bid2
             && Due(h1) == w.houses[id].rent + bid1 && h1.rent == w.houses[id].rent
    requires w.banks[q] >= w.houses[id].rent + bid2
    ensures var w2 := AfterBid(w1, q, id, bid2);
            && w2.banks == w.banks[q := w.banks[q] - (w.houses[id].rent + bid2)]
            && id in w2.houses && Recorded(w1.houses[id], w2.houses[id], q, w.names.of[q], bid2)
  {
    TwoNames(w.names, p, q);
    NextBid(w1, q, id, bid2, p);
    Restored(w.banks, p, q, w.houses[id].rent + bid1, w.houses[id].rent + bid2);
  }

  lemma TwoNames(ns: Names, p: Player, q: Player)
    requires ValidNames(ns) && p in ns.of && q in ns.of && p != q
    ensures ns.of[p] != ns.of[q] && ns.of[p] != "" && Find(ns, ns.of[p]) == Some(p)
  {
  }

  /** The first bid on a house that is taken. */
  lemma FirstBid(w: World, p: Player, id: HouseId, bid: nat)
    requires p in w.banks && p in w.names.of && id in w.houses
    requires w.houses[id].bidderName == "" && w.houses[id].bidder == None
    ensures var h, w1 := w.houses[id], AfterBid(w, p, id, bid);
            if w.banks[p] < h.rent + bid then w1 == w
            else
              && w1.banks == Debit(w.banks, p, h.rent + bid) && w1.names == w.names
              && w1.houses == w.houses[id := h.(highestBid := 0, internalBid := bid, holderLimit := bid,
                                                bidderName := w.names.of[p], bidder := Some(p))]
  {
  }

  /** A house whose bid player `q` has outbid. */
  predicate Recorded(h: House, h': House, q: Player, name: string, bid: nat) {
    h' == h.(bidder := Some(q), bidderName := name, internalBid := bid, holderLimit := bid,
             highestBid := h.internalBid + 1)
  }

  lemma NextBid(w: World, q: Player, id: HouseId, bid: nat, p: Player)
    requires p in w.banks && q in w.banks && q in w.names.of && id in w.houses
    requires var h := w.houses[id];
             && h.bidderName != "" && h.bidderName != w.names.of[q] && Find(w.names, h.bidderName) == Some(p)
             && bid > h.internalBid
    ensures var h, w' := w.houses[id], AfterBid(w, q, id, bid);
            if w.banks[q] < h.rent + bid then w' == w
            else
              && w'.banks == Credit(Debit(w.banks, q, h.rent + bid), Some(p), Due(h)) && w'.names == w.names
              && id in w'.houses && w'.houses == w.houses[id := w'.houses[id]]
              && Recorded(h, w'.houses[id], q, w.names.of[q], bid)
  {
  }

  /** A higher bid by somebody else: who can pay for it is recorded as the bidder, limit and rent go back
      to the one recorded before, and the bid shown is one above the earlier one. Nothing else changes,
      and nothing at all when the bid cannot be paid. */
  lemma Outbid(w: World, p: Player, q: Player, id: HouseId, bid: nat)
    requires Base(w) && id in w.houses && w.houses[id].bidder == Some(p) && q in w.banks && q != p
    requires bid > w.houses[id].internalBid
    ensures var h, w' := w.houses[id], AfterBid(w, q, id, bid);
            if w.banks[q] < h.rent + bid then w' == w
            else
              && w'.banks.Keys == w.banks.Keys && w'.banks[q] == w.banks[q] - (h.rent + bid)
              && w'.banks[p] == w.banks[p] + (h.holderLimit + h.rent)
              && (forall x :: x in w.banks && x != p && x != q ==> w'.banks[x] == w.banks[x])
              && w'.names == w.names && id in w'.houses && w'.houses == w.houses[id := w'.houses[id]]
              && w'.houses[id] == h.(bidder := Some(q), bidderName := w.names.of[q], internalBid := bid,
                                     holderLimit := bid, highestBid := h.internalBid + 1)
  {
    assert HouseInv(w, w.houses[id]);
    OtherName(w, p, q, id);
    NextBid(w, q, id, bid, p);
  }

  lemma OtherName(w: World, p: Player, q: Player, id: HouseId)
    requires Base(w) && id in w.houses && w.houses[id].bidder == Some(p) && q in w.banks && q != p
    ensures w.houses[id].bidderName != "" && w.houses[id].bidderName != w.names.of[q]
    ensures p in w.banks && Find(w.names, w.houses[id].bidderName) == Some(p)
  {
    assert HouseInv(w, w.houses[id]);
    assert Find(w.names, w.names.of[q]) == Some(q);
  }

  /** A bid by somebody else that is not higher is shown, and changes nothing else. */
  lemma LowBid(w: World, p: Player, q: Player, id: HouseId, bid: nat)
    requires Base(w) && id in w.houses && w.houses[id].bidder == Some(p) && q in w.banks && q != p
    requires bid <= w.houses[id].internalBid
    ensures var h, w' := w.houses[id], AfterBid(w, q, id, bid);
            w'.banks == w.banks && w'.names == w.names && w'.houses == w.houses[id := h.(highestBid := bid)]
  {
    OtherName(w, p, q, id);
  }

  /** The bidder's new bid, lower or higher: the difference is paid or paid back, bid and limit change,
      and nothing else does; nothing at all for who has less than the new bid. */
  lemma RaisedBid(w: World, p: Player, id: HouseId, bid: nat)
    requires Base(w) && id in w.houses && w.houses[id].bidder == Some(p) && Spelled(w.names, w.houses[id])
    ensures p in w.banks
    ensures var h, w' := w.houses[id], AfterBid(w, p, id, bid);
            if w.banks[p] < bid then w' == w
            else
              && w'.banks == w.banks[p := w.banks[p] + h.internalBid - bid] && w'.names == w.names
              && w'.houses == w.houses[id := h.(internalBid := bid, holderLimit := bid)]
  {
    assert HouseInv(w, w.houses[id]);
    var h, delta := w.houses[id], bid - w.houses[id].internalBid;
    assert AuctionPayment(w.names, w.banks, p, h, bid, true)
        == if w.banks[p] < bid then None else Some(Debit(w.banks, p, delta));
  }

  lemma Restored(banks: map<Player, int>, p: Player, q: Player, x: int, y: int)
    requires p in banks && q in banks && p != q
    ensures Credit(Debit(Debit(banks, p, x), q, y), Some(p), x) == banks[q := banks[q] - y]
  {
  }

  // ---------------------------------------------------------------- who may do what

  /** Only the owner of a rented house can offer it, and only to somebody else; the offer records the name
      as typed and the player found under it, and moves no money. */
  lemma OfferIff(w: World, p: Player, id: HouseId, typed: string, price: nat, allowed: bool)
    requires Base(w) && p in w.banks
    ensures var w', to := AfterOffer(w, p, id, typed, price, allowed), Find(w.names, typed);
            && (w' != w <==> id in w.houses && w.houses[id].state == Rented && w.houses[id].owner == p
                             && to.Some? && to != Some(p) && allowed)
            && (w' != w ==>
                  w'.banks == w.banks && w'.names == w.names
                  && w'.houses == w.houses[id := w.houses[id].(bidderName := typed, bidder := to, internalBid := price,
                                                               state := Transfer)])
  {
    if id in w.houses {
      var w' := AfterOffer(w, p, id, typed, price, allowed);
      assert w.houses[id].state == Rented && w'.houses != w.houses ==> w'.houses[id].state == Transfer;
    }
  }

  /** Only the player to whom a house is offered can accept, once, and with price and rent in the bank. */
  lemma AcceptIff(w: World, p: Player, id: HouseId, allowed: bool)
    requires Base(w) && p in w.banks
    ensures AfterAccept(w, p, id, allowed) != w <==>
              id in w.houses && w.houses[id].state == Transfer && w.houses[id].bidder == Some(p)
              && !w.houses[id].accepted && w.houses[id].rent + w.houses[id].internalBid <= w.banks[p] && allowed
  {
    if id in w.houses && w.houses[id].state == Transfer && w.houses[id].bidder == Some(p) && allowed
       && !w.houses[id].accepted && w.houses[id].rent + w.houses[id].internalBid <= w.banks[p] {
      assert AfterAccept(w, p, id, allowed).houses[id].accepted;
    }
  }

  /** Only the owner can cancel a transfer and only the new owner can reject it, accepted or not. */
  lemma UndoIff(w: World, p: Player, id: HouseId)
    ensures AfterCancel(w, p, id) != w <==>
              id in w.houses && w.houses[id].state == Transfer && w.houses[id].owner == p
    ensures AfterReject(w, p, id) != w <==>
              id in w.houses && w.houses[id].state == Transfer && w.houses[id].bidder == Some(p)
  {
    if id in w.houses && w.houses[id].state == Transfer {
      assert Undo(w, id).houses[id].state == Rented;
    }
  }

  /** Only the owner can move out of a rented house, or take that back; nothing else changes. */
  lemma MoveOutIff(w: World, p: Player, id: HouseId)
    ensures var w' := Step(w, Leave(p, id));
            && (w' != w <==> id in w.houses && w.houses[id].state == Rented && w.houses[id].owner == p)
            && (w' != w ==> w' == w.(houses := w.houses[id := w.houses[id].(state := MoveOut)]))
    ensures var w' := Step(w, Stay(p, id));
            && (w' != w <==> id in w.houses && w.houses[id].state == MoveOut && w.houses[id].owner == p)
            && (w' != w ==> w' == w.(houses := w.houses[id := w.houses[id].(state := Rented)]))
  {
    if id in w.houses {
      assert forall s :: w.houses[id := w.houses[id].(state := s)][id].state == s;
    }
  }

  /** An accepted transfer that is then rejected or cancelled leaves the house with its owner,
      without bidder, and every account as it was, except that a new owner who was not named to
      the letter keeps limit and rent. */
  lemma TransferUndone(w: World, p: Player, id: HouseId, allowed: bool)
    requires Base(w) && AfterAccept(w, p, id, allowed) != w
    ensures var w1, h := AfterAccept(w, p, id, allowed), w.houses[id];
            var w2 := AfterReject(w1, p, id);
            && w2 == AfterCancel(w1, h.owner, id)
            && w2.banks == w.banks[p := w.banks[p] + (if Spelled(w.names, h) then 0 else Due(h))]
            && (w2.banks == w.banks <==> Harmless(w.names, h))
            && w2.houses == w.houses[id := h.(bidderName := "", bidder := None, internalBid := 0, state := Rented,
                                              accepted := false)]
  {
    var w1, h := AfterAccept(w, p, id, allowed), w.houses[id];
    var extra := if Spelled(w.names, h) then 0 else Due(h);
    AcceptedBanks(w, p, id, allowed);
    RefundedBanks(w, w1, p, id, extra);
    assert extra != 0 ==> w.banks[p := w.banks[p] + extra][p] != w.banks[p];
  }

  lemma AcceptedBanks(w: World, p: Player, id: HouseId, allowed: bool)
    requires Base(w) && AfterAccept(w, p, id, allowed) != w
    ensures p in w.banks && id in w.houses && w.houses[id].state == Transfer && w.houses[id].bidder == Some(p)
    ensures var w1, h := AfterAccept(w, p, id, allowed), w.houses[id];
            && w1.banks == w.banks[p := w.banks[p] - Price(h) + (if Spelled(w.names, h) then 0 else Due(h))]
            && w1.houses == w.houses[id := h.(accepted := true)] && w1.names == w.names
  {
    assert HouseInv(w, w.houses[id]);
  }

  /** After an acceptance that has cost the price less `extra`. */
  lemma RefundedBanks(w: World, w1: World, p: Player, id: HouseId, extra: int)
    requires p in w.banks && id in w.houses && w.houses[id].state == Transfer && w.houses[id].bidder == Some(p)
    requires w1.banks == w.banks[p := w.banks[p] - Price(w.houses[id]) + extra]
    requires w1.houses == w.houses[id := w.houses[id].(accepted := true)]
    ensures AfterReject(w1, p, id) == Undo(w1, id) && Undo(w1, id).banks == w.banks[p := w.banks[p] + extra]
  {
    SetTwice(w.banks, p, w.banks[p] - Price(w.houses[id]) + extra, w.banks[p] + extra);
  }

  lemma SetTwice(banks: map<Player, int>, p: Player, x: int, y: int)
    ensures banks[p := x][p := y] == banks[p := y]
  {
  }

  // ---------------------------------------------------------------- whole runs

  function Run(w: World, actions: seq<Action>): World
    decreases actions
  {
    if actions == [] then w else Run(Step(w, actions[0]), actions[1..])
  }

  ghost predicate GuardedRun(w: World, actions: seq<Action>)
    decreases actions
  {
    actions != [] ==> Guarded(w, actions[0]) && GuardedRun(Step(w, actions[0]), actions[1..])
  }

  /** Over every run, no balance becomes negative, a standing bid's two records agree, and the
      sum of all accounts and all escrow stays what it was. */
  lemma {:induction false} RunConserves(w: World, actions: seq<Action>)
    requires Inv(w) && GuardedRun(w, actions)
    ensures Inv(Run(w, actions)) && Wealth(Run(w, actions)) == Wealth(w)
    decreases actions
  {
    if actions != [] {
      StepKeeps(w, actions[0]);
      RunConserves(Step(w, actions[0]), actions[1..]);
    }
  }

  // ---------------------------------------------------------------- three runs that do not conserve

  lemma TwoSteps(w: World, a: Action, b: Action)
    ensures Run(w, [a, b]) == Step(Step(w, a), b)
  {
    assert [a, b][1..] == [b] && [b][1..] == [];
    assert Run(Step(w, a), [b]) == Run(Step(Step(w, a), b), []);
  }

  lemma ThreeSteps(w: World, a: Action, b: Action, c: Action)
    ensures Run(w, [a, b, c]) == Step(Step(Step(w, a), b), c)
  {
    assert [a, b, c][1..] == [b, c];
    TwoSteps(Step(w, a), b, c);
  }

  /** A rented house that its owner offers to player `p` under the name `typed`. */
  ghost predicate Offered(w: World, id: HouseId, typed: string, p: Player) {
    && Inv(w) && id in w.houses && w.houses[id].state == Rented && w.houses[id].owner in w.banks
    && Find(w.names, typed) == Some(p) && p in w.banks && p != w.houses[id].owner
  }

  lemma OfferMade(w: World, id: HouseId, typed: string, p: Player, price: nat) returns (w1: World)
    requires Offered(w, id, typed, p)
    ensures w1 == Step(w, Offer(w.houses[id].owner, id, typed, price, true))
    ensures Base(w1) && w1.banks == w.banks && w1.names == w.names && Wealth(w1) == Wealth(w) && id in w1.houses
    ensures w1.houses[id]
         == w.houses[id].(bidderName := typed, bidder := Some(p), internalBid := price, state := Transfer)
    ensures !w1.houses[id].accepted
  {
    var h := w.houses[id];
    assert HouseInv(w, h);
    w1 := AfterOffer(w, h.owner, id, typed, price, true);
    OfferKeepsIff(w, h.owner, id, typed, price, true);
  }

  /** Offered in another spelling, accepted and rejected: the new owner has gained limit and rent. */
  lemma TypedNameRun(w: World, id: HouseId, typed: string, p: Player, price: nat) returns (w': World)
    requires Offered(w, id, typed, p) && typed != w.names.of[p]
    requires w.banks[p] >= w.houses[id].rent + price
    ensures w' == Run(w, [Offer(w.houses[id].owner, id, typed, price, true), Accept(p, id, true), Reject(p, id)])
    ensures w'.banks == w.banks[p := w.banks[p] + Due(w.houses[id])]
    ensures Wealth(w') == Wealth(w) + Due(w.houses[id])
  {
    var w1 := OfferMade(w, id, typed, p, price);
    OfferedDue(w.houses[id], w1.houses[id], typed, p, price);
    w' := GainAfterOffer(w, w1, id, p);
    RunOfThree(w, Offer(w.houses[id].owner, id, typed, price, true), Accept(p, id, true), Reject(p, id), w1, w');
  }

  lemma GainAfterOffer(w: World, w1: World, id: HouseId, p: Player) returns (w': World)
    requires Base(w1) && id in w.houses && w1.banks == w.banks && w1.names == w.names && Wealth(w1) == Wealth(w)
    requires p in w.banks && id in w1.houses
    requires var h1 := w1.houses[id];
             && h1.state == Transfer && h1.bidder == Some(p) && !h1.accepted && h1.bidderName != w1.names.of[p]
             && Due(h1) == Due(w.houses[id]) && Price(h1) <= w.banks[p]
    ensures w' == Step(Step(w1, Accept(p, id, true)), Reject(p, id))
    ensures w'.banks == w.banks[p := w.banks[p] + Due(w.houses[id])] && Wealth(w') == Wealth(w) + Due(w.houses[id])
  {
    w' := AcceptReject(w1, id, p);
  }

  lemma OfferedDue(h: House, h1: House, typed: string, p: Player, price: nat)
    requires h1 == h.(bidderName := typed, bidder := Some(p), internalBid := price, state := Transfer)
    ensures Due(h1) == Due(h) && Price(h1) == h.rent + price && h1.state == Transfer && h1.bidder == Some(p)
    ensures h1.bidderName == typed && h1.internalBid == price
  {
  }

  lemma RunOfThree(w: World, a: Action, b: Action, c: Action, w1: World, w3: World)
    requires w1 == Step(w, a) && w3 == Step(Step(w1, b), c)
    ensures Run(w, [a, b, c]) == w3
  {
    ThreeSteps(w, a, b, c);
  }

  lemma AcceptReject(w: World, id: HouseId, p: Player) returns (w': World)
    requires Base(w) && p in w.banks && id in w.houses
    requires var h := w.houses[id];
             h.state == Transfer && h.bidder == Some(p) && !h.accepted && w.banks[p] >= Price(h)
    requires w.houses[id].bidderName != w.names.of[p]
    ensures w' == Step(Step(w, Accept(p, id, true)), Reject(p, id))
    ensures w'.banks == w.banks[p := w.banks[p] + Due(w.houses[id])]
    ensures Wealth(w') == Wealth(w) + Due(w.houses[id])
  {
    Accepts(w, id, p);
    var w1 := AcceptGains(w, id, p);
    RejectGains(w, w1, id, p);
    w' := AfterReject(w1, p, id);
  }

  lemma Accepts(w: World, id: HouseId, p: Player)
    requires p in w.banks && p in w.names.of && id in w.houses
    requires var h := w.houses[id];
             h.state == Transfer && h.bidder == Some(p) && !h.accepted && w.banks[p] >= Price(h)
    ensures AfterAccept(w, p, id, true) != w
  {
    assert AfterAccept(w, p, id, true).houses[id].accepted;
  }

  lemma RejectGains(w: World, w1: World, id: HouseId, p: Player)
    requires p in w.banks && id in w.houses && w.houses[id].state == Transfer && w.houses[id].bidder == Some(p)
    requires w1.banks == w.banks[p := w.banks[p] - Price(w.houses[id]) + Due(w.houses[id])]
    requires w1.houses == w.houses[id := w.houses[id].(accepted := true)]
    requires Base(w1) && Wealth(w1) == Wealth(w) + Due(w.houses[id])
    ensures var h, w' := w.houses[id], AfterReject(w1, p, id);
            w'.banks == w.banks[p := w.banks[p] + Due(h)] && Wealth(w') == Wealth(w) + Due(h)
  {
    RefundedBanks(w, w1, p, id, Due(w.houses[id]));
    UndoBooks(w1, id);
  }

  lemma AcceptGains(w: World, id: HouseId, p: Player) returns (w1: World)
    requires Base(w) && AfterAccept(w, p, id, true) != w && !Spelled(w.names, w.houses[id])
    ensures w1 == AfterAccept(w, p, id, true) && Base(w1) && Wealth(w1) == Wealth(w) + Due(w.houses[id])
    ensures p in w.banks && id in w.houses && w.houses[id].state == Transfer && w.houses[id].bidder == Some(p)
    ensures w1.banks == w.banks[p := w.banks[p] - Price(w.houses[id]) + Due(w.houses[id])]
    ensures w1.houses == w.houses[id := w.houses[id].(accepted := true)]
  {
    AcceptConservesIff(w, p, id, true);
    AcceptedBanks(w, p, id, true);
    w1 := AfterAccept(w, p, id, true);
  }

  /** Offered for a price, and then bid on with nothing by the new owner: the price is made. */
  lemma BidOnTransferRun(w: World, id: HouseId, p: Player, price: nat) returns (w': World)
    requires p in w.names.of && Offered(w, id, w.names.of[p], p)
    ensures w' == Run(w, [Offer(w.houses[id].owner, id, w.names.of[p], price, true), BidOn(p, id, 0)])
    ensures w'.banks == w.banks[p := w.banks[p] + price] && Wealth(w') == Wealth(w) + price
  {
    var name := w.names.of[p];
    var w1 := OfferMade(w, id, name, p, price);
    OfferedDue(w.houses[id], w1.houses[id], name, p, price);
    w' := BidNothing(w1, p, id, price);
    RunOfTwo(w, Offer(w.houses[id].owner, id, name, price, true), BidOn(p, id, 0), w1, w');
  }

  lemma RunOfTwo(w: World, a: Action, b: Action, w1: World, w2: World)
    requires w1 == Step(w, a) && w2 == Step(w1, b)
    ensures Run(w, [a, b]) == w2
  {
    TwoSteps(w, a, b);
  }

  lemma BidNothing(w: World, p: Player, id: HouseId, price: nat) returns (w': World)
    requires Base(w) && p in w.banks && id in w.houses && w.houses[id].bidderName == w.names.of[p]
    requires w.houses[id].state == Transfer && !w.houses[id].accepted && w.houses[id].internalBid == price
    ensures w' == Step(w, BidOn(p, id, 0))
    ensures w'.banks == w.banks[p := w.banks[p] + price] && Wealth(w') == Wealth(w) + price
  {
    assert AuctionPayment(w.names, w.banks, p, w.houses[id], 0, true) == Some(w.banks[p := w.banks[p] + price]);
    PaidBid(w, p, id, 0);
    w' := AfterBid(w, p, id, 0);
  }

  /** Bid on while it is rented, and then offered by its owner: bid and rent are gone. */
  lemma BidOnRentedRun(w: World, id: HouseId, p: Player, bid: nat, price: nat) returns (w': World)
    requires p in w.names.of && Offered(w, id, w.names.of[p], p) && w.banks[p] >= w.houses[id].rent + bid
    ensures w' == Run(w, [BidOn(p, id, bid), Offer(w.houses[id].owner, id, w.names.of[p], price, true)])
    ensures w'.banks == w.banks[p := w.banks[p] - (w.houses[id].rent + bid)]
    ensures Wealth(w') == Wealth(w) - (w.houses[id].rent + bid)
  {
    var h, name := w.houses[id], w.names.of[p];
    TwoSteps(w, BidOn(p, id, bid), Offer(h.owner, id, name, price, true));
    var w1 := BidTaken(w, id, p, bid);
    w' := AfterOffer(w1, h.owner, id, name, price, true);
    Books(w1, w1.banks, id, w'.houses[id]);
    assert w' == w1.(banks := w1.banks, houses := w1.houses[id := w'.houses[id]]);
  }

  lemma BidTaken(w: World, id: HouseId, p: Player, bid: nat) returns (w1: World)
    requires p in w.names.of && Offered(w, id, w.names.of[p], p) && w.banks[p] >= w.houses[id].rent + bid
    ensures w1 == AfterBid(w, p, id, bid) && w1.names == w.names && Wealth(w1) == Wealth(w) && id in w1.houses
    ensures w1.banks == w.banks[p := w.banks[p] - (w.houses[id].rent + bid)]
    ensures var h := w.houses[id];
            w1.houses[id] == h.(highestBid := 0, internalBid := bid, holderLimit := bid,
                                bidderName := w.names.of[p], bidder := Some(p))
  {
    assert HouseInv(w, w.houses[id]);
    w1 := AfterBid(w, p, id, bid);
    FirstBid(w, p, id, bid);
    PaidBid(w, p, id, bid);
  }

  lemma LowerThree(a: char, b: char, c: char)
    ensures Lower([a, b, c]) == [LowerChar(a), LowerChar(b), LowerChar(c)]
  {
    assert [a, b, c][1..] == [b, c] && [b, c][1..] == [c] && [c][1..] == [];
    assert Lower([c]) == [LowerChar(c)] + Lower([]);
    assert Lower([b, c]) == [LowerChar(b)] + Lower([c]);
  }

  lemma LowerNames()
    ensures Lower("Al") == "al" && Lower("Bob") == "bob" && Lower("bob") == "bob"
  {
    LowerThree('B', 'o', 'b');
    LowerThree('b', 'o', 'b');
    assert "Al"[1..] == "l" && "l"[1..] == "";
    assert Lower("l") == "l";
  }

  /** Al rents the only house, for 50; Bob has some gold, and can be typed as "bob". */
  lemma AlAndBob(gold: nat) returns (w: World, name: string, typed: string)
    ensures name == "Bob" && typed == "bob"
    ensures Offered(w, 1, typed, 2) && Offered(w, 1, name, 2) && w.names.of[2] == name != typed
    ensures w.banks[2] == gold
    ensures var h := w.houses[1]; h.owner == 1 && h.rent == 50 && Due(h) == 50
  {
    LowerNames();
    name, typed := "Bob", "bob";
    w := World(map[1 := 0, 2 := gold], map[1 := House(1, Rented, "", None, 50, 0, 0, 0, false)],
               Names(map[1 := "Al", 2 := "Bob"], map["al" := 1, "bob" := 2]));
    assert HouseInv(w, w.houses[1]);
    assert "Bob"[0] != "bob"[0];
  }

  /** Al offers the house to "bob"; Bob accepts and rejects, and has 50 more than before. */
  lemma TypedNameWitness() returns (w: World, typed: string, w': World)
    ensures Inv(w) && 2 in w.banks && typed == "bob"
    ensures w' == Run(w, [Offer(1, 1, typed, 100, true), Accept(2, 1, true), Reject(2, 1)])
    ensures w'.banks == w.banks[2 := w.banks[2] + 50] && Wealth(w') == Wealth(w) + 50
  {
    var name;
    w, name, typed := AlAndBob(300);
    w' := TypedNameRun(w, 1, typed, 2, 100);
  }

  /** Al offers the house to "Bob" for 100; Bob bids nothing on it, and has 100 more than before. */
  lemma BidOnTransferWitness() returns (w: World, name: string, w': World)
    ensures Inv(w) && 2 in w.banks && name == "Bob"
    ensures w' == Run(w, [Offer(1, 1, name, 100, true), BidOn(2, 1, 0)])
    ensures w'.banks == w.banks[2 := w.banks[2] + 100] && Wealth(w') == Wealth(w) + 100
  {
    var typed;
    w, name, typed := AlAndBob(0);
    assert Offer(w.houses[1].owner, 1, w.names.of[2], 100, true) == Offer(1, 1, name, 100, true);
    w' := BidOnTransferRun(w, 1, 2, 100);
  }

  /** Bob bids 1000 on the house Al rents, which is taken; when Al then offers the house, the bid and
      its rent are gone. */
  lemma BidOnRentedWitness() returns (w: World, name: string, w': World)
    ensures Inv(w) && 2 in w.banks && name == "Bob"
    ensures w' == Run(w, [BidOn(2, 1, 1000), Offer(1, 1, name, 0, true)])
    ensures w'.banks == w.banks[2 := w.banks[2] - 1050] && Wealth(w') == Wealth(w) - 1050
  {
    var typed;
    w, name, typed := AlAndBob(1050);
    w' := BidOnRentedRun(w, 1, 2, 1000, 0);
  }

  // ---------------------------------------------------------------- 64-bit accounts

  /** Arithmetic on unsigned 64-bit values. */
  function W(x: int): int {
    x % U64
  }

  /** All the money there is, counted twice, and the rent of any house fit 64 bits together. */
  ghost predicate Safe(w: World) {
    Base(w) && Wealth(w) < U64 && forall id :: id in w.houses ==> SafeHouse(w, w.houses[id])
  }

  ghost predicate SafeHouse(w: World, h: House) {
    h.rent + 2 * Wealth(w) < U64 && h.holderLimit <= Wealth(w)
  }

  /** No account and no escrow holds more than there is. */
  lemma Bounds(w: World, p: Player, id: HouseId)
    requires Base(w)
    ensures p in w.banks ==> 0 <= w.banks[p] <= Wealth(w)
    ensures id in w.houses ==> Escrow(w.houses[id]) <= Wealth(w)
    ensures p in w.banks && id in w.houses ==> w.banks[p] + Escrow(w.houses[id]) <= Wealth(w)
  {
    SumNonNegative(w.banks, Self);
    SumNonNegative(w.houses, Escrow);
    if p in w.banks {
      EntryBounded(w.banks, Self, p);
    }
    if id in w.houses {
      EntryBounded(w.houses, Escrow, id);
    }
  }

  /** In a safe world no sum or difference of a payment leaves 64 bits, and an overflowing price is
      refused by the second check. */
  lemma PaymentFits(w: World, p: Player, id: HouseId, bid: nat, replace: bool)
    requires Safe(w) && p in w.banks && id in w.houses && bid < U64 && w.houses[id].internalBid < U64
    requires replace ==> w.houses[id].bidderName == w.names.of[p]
    ensures var h, balance := w.houses[id], w.banks[p];
            && (balance < bid || W(h.rent + bid) == h.rent + bid)
            && (balance >= h.rent + bid ==> W(balance - W(h.rent + bid)) == balance - (h.rent + bid))
            && W(balance - W(bid - h.internalBid)) == W(balance - (bid - h.internalBid))
            && (replace && h.state != Transfer && balance >= bid ==>
                  W(balance - (bid - h.internalBid)) == balance - (bid - h.internalBid))
  {
    var h, balance := w.houses[id], w.banks[p];
    Bounds(w, p, id);
    assert HouseInv(w, h) && SafeHouse(w, h);
    WrapDifference(balance, bid - h.internalBid);
  }

  /** Nor does a credit to any account, whose balance is at most the wealth. */
  lemma CreditFits(w: World, id: HouseId, balance: nat)
    requires Safe(w) && id in w.houses && balance <= Wealth(w)
    ensures var h := w.houses[id];
            W(balance + W(Due(h))) == balance + Due(h)
  {
    assert SafeHouse(w, w.houses[id]);
  }

  ghost predicate Creditable(banks: map<Player, int>, h: House) {
    forall x :: x in banks ==> W(banks[x] + W(Due(h))) == banks[x] + Due(h)
  }

  lemma WrapDifference(x: int, y: int)
    requires 0 <= x < U64 && 0 < y + U64 && y < U64
    ensures W(x - W(y)) == W(x - y)
    ensures 0 <= x - y < U64 ==> W(x - y) == x - y
  {
    if y < 0 {
      assert W(y) == y + U64;
      WrapAround(x - y);
    }
  }

  lemma WrapAround(x: int)
    ensures W(x - U64) == W(x)
  {
    var q := x / U64;
    assert x - U64 == (q - 1) * U64 + x % U64;
  }

  /** A bidder bids again during a transfer: the one payment whose difference can wrap. */
  predicate Rebids(w: World, p: Player, id: HouseId) {
    p in w.banks && p in w.names.of && id in w.houses && w.houses[id].state == Transfer
    && w.houses[id].bidderName == w.names.of[p]
  }

  /** A bid as 64 bits compute it. */
  function AfterBid64(w: World, p: Player, id: HouseId, bid: nat): World {
    var w' := AfterBid(w, p, id, bid);
    if Rebids(w, p, id) && p in w'.banks then w'.(banks := w'.banks[p := W(w'.banks[p])]) else w'
  }

  /** The bidder's new bid during a transfer, in 64 bits; every other bid is exact. */
  lemma WrappedBid(w: World, p: Player, id: HouseId, bid: nat)
    requires Base(w) && id in w.houses && p in w.banks && w.banks[p] < U64
    ensures var h := w.houses[id];
            if h.state == Transfer && NamedAs(w.names, p, h.bidderName) && bid <= w.banks[p] then
              && AfterBid64(w, p, id, bid).banks == w.banks[p := (w.banks[p] + h.internalBid - bid) % U64]
              && AfterBid64(w, p, id, bid).houses == AfterBid(w, p, id, bid).houses
            else AfterBid64(w, p, id, bid) == AfterBid(w, p, id, bid)
  {
    var h := w.houses[id];
    assert HouseInv(w, h);
    if Rebids(w, p, id) && bid <= w.banks[p] {
      RaisedBid(w, p, id, bid);
      assert W(w.banks[p] + h.internalBid - bid) == (w.banks[p] + h.internalBid - bid) % U64;
    } else if Rebids(w, p, id) {
      RaisedBid(w, p, id, bid);
      assert w.banks[p := W(w.banks[p])] == w.banks;
    }
  }

  /** What a step makes of the house it is about, as far as the bounds are concerned. */
  lemma LimitBounded(w: World, a: Action, id: HouseId)
    requires Safe(w) && id in w.houses
    ensures var w' := Step(w, a);
            && id in w'.houses && w'.houses[id].rent == w.houses[id].rent
            && w'.houses[id].holderLimit <= Wealth(w) && w'.houses.Keys == w.houses.Keys
  {
    assert SafeHouse(w, w.houses[id]);
    if a.BidOn? {
      BidLimit(w, a.p, a.id, a.bid, id);
      Bounds(w, a.p, id);
    } else {
      LimitStays(w, a, id);
    }
  }

  lemma LimitStays(w: World, a: Action, id: HouseId)
    requires id in w.houses && !a.BidOn?
    ensures var w' := Step(w, a);
            && id in w'.houses && w'.houses[id].rent == w.houses[id].rent
            && w'.houses[id].holderLimit == w.houses[id].holderLimit && w'.houses.Keys == w.houses.Keys
  {
  }

  /** A new limit is a bid that the bidder could pay. */
  lemma BidLimit(w: World, p: Player, at: HouseId, bid: nat, id: HouseId)
    requires id in w.houses
    ensures var w' := AfterBid(w, p, at, bid);
            && id in w'.houses && w'.houses[id].rent == w.houses[id].rent && w'.houses.Keys == w.houses.Keys
            && (w'.houses[id].holderLimit == w.houses[id].holderLimit
                || (p in w.banks && w'.houses[id].holderLimit == bid <= w.banks[p]))
  {
  }

  lemma StepSafe(w: World, a: Action)
    requires Safe(w) && Inv(w) && Guarded(w, a)
    ensures Safe(Step(w, a)) && Inv(Step(w, a))
  {
    StepKeeps(w, a);
    var w' := Step(w, a);
    forall id | id in w'.houses
      ensures SafeHouse(w', w'.houses[id])
    {
      StepHouses(w, a);
      LimitBounded(w, a, id);
      assert SafeHouse(w, w.houses[id]);
    }
  }

  lemma StepHouses(w: World, a: Action)
    ensures Step(w, a).houses.Keys == w.houses.Keys
  {
  }

  /** What a method keeps when its step is guarded. */
  ghost predicate Kept(w: World, a: Action, w': World) {
    Safe(w) && Inv(w) && Guarded(w, a) ==> Safe(w') && Inv(w')
  }

  lemma StepKept(w: World, a: Action)
    ensures Kept(w, a, Step(w, a))
  {
    if Safe(w) && Inv(w) && Guarded(w, a) {
      StepSafe(w, a);
    }
  }

  class AuctionHouse {
    const names: Names
    var banks: map<Player, int>
    var houses: map<HouseId, House>

    ghost function View(): World
      reads this
    {
      World(banks, houses, names)
    }

    constructor (w: World)
      ensures View() == w
    {
      banks, houses, names := w.banks, w.houses, w.names;
    }

    method GetPlayerByName(s: string) returns (p: Option<Player>)
      ensures p == Find(names, s)
    {
      if s == "" {
        return None;
      }
      var key := Lower(s);
      p := if key in names.mapped then Some(names.mapped[key]) else None;
    }

    /** `processBankAuction` with its 64-bit sums: in safe worlds it is the exact payment, but for
        a bidder who bids again on a house in transfer. The bid comes from the client and may be
        any 64-bit value. */
    method ProcessBankAuction(p: Player, id: HouseId, bid: nat, replace: bool) returns (ok: bool)
      requires Safe(View()) && p in banks && id in houses && bid < U64 && houses[id].internalBid < U64
      requires replace ==> houses[id].bidderName == names.of[p]
      modifies this`banks
      ensures match AuctionPayment(names, old(banks), p, houses[id], bid, replace)
              case None => !ok && banks == old(banks)
              case Some(after) =>
                ok && banks == if replace && houses[id].state == HouseState.Transfer then after[p := W(after[p])]
                               else after
    {
      var h := houses[id];
      PaymentFits(View(), p, id, bid, replace);
      if !replace && banks[p] < W(h.rent + bid) {
        return false;
      }
      if banks[p] < bid {
        return false;
      }
      if replace {
        PayDifference(p, id, bid);
      } else {
        TakeAndRefund(p, id, bid);
      }
      ok := true;
    }

    /** The bidder's new bid, of which the earlier one is paid already. */
    method PayDifference(p: Player, id: HouseId, bid: nat)
      requires Safe(View()) && p in banks && id in houses && bid <= banks[p] && bid < U64
      requires houses[id].internalBid < U64 && houses[id].bidderName == names.of[p]
      modifies this`banks
      ensures var after := Debit(old(banks), p, BidCost(houses[id], bid, true));
              banks == if houses[id].state == HouseState.Transfer then after[p := W(after[p])] else after
    {
      PaymentFits(View(), p, id, bid, true);
      banks := banks[p := W(banks[p] - W(bid - houses[id].internalBid))];
    }

    /** The new bid is paid, and the bid that it replaces goes to whoever is recorded under another
        name. */
    method TakeAndRefund(p: Player, id: HouseId, bid: nat)
      requires Safe(View()) && p in banks && id in houses && banks[p] >= houses[id].rent + bid
      modifies this`banks
      ensures Some(banks) == AuctionPayment(names, old(banks), p, houses[id], bid, false)
    {
      var h := houses[id];
      PaymentOf(names, banks, p, h, bid);
      ghost var paid := banks[p := banks[p] - (h.rent + bid)];
      CreditFitsAll(View(), p, id, bid, paid);
      Take(p, h.rent, bid);
      assert banks == paid;
      if h.bidderName != names.of[p] {
        CreditOther(h);
      }
    }

    method Take(p: Player, rent: nat, bid: nat)
      requires Base(View()) && Wealth(View()) < U64 && p in banks && banks[p] >= rent + bid
      modifies this`banks
      ensures banks == old(banks)[p := old(banks[p]) - (rent + bid)] && 0 <= banks[p] <= old(banks[p])
    {
      Bounds(View(), p, 0);
      var balance := banks[p];
      banks := banks[p := W(balance - W(rent + bid))];
    }

    /** The credit to whoever goes by the recorded name. */
    method CreditOther(h: House)
      requires Creditable(banks, h)
      modifies this`banks
      ensures banks == Credit(old(banks), Find(names, h.bidderName), Due(h))
    {
      var otherPlayer := GetPlayerByName(h.bidderName);
      if otherPlayer.Some? && otherPlayer.value in banks {
        var other := otherPlayer.value;
        banks := banks[other := W(banks[other] + W(h.holderLimit + h.rent))];
      }
    }

    method Bid(p: Player, id: HouseId, bid: nat)
      requires Safe(View()) && bid < U64 && (id in houses ==> houses[id].internalBid < U64)
      modifies this
      ensures View() == AfterBid64(old(View()), p, id, bid)
      ensures Kept(old(View()), BidOn(p, id, bid), View())
    {
      StepKept(View(), BidOn(p, id, bid));
      if p !in banks || id !in houses {
        return;
      }
      PlaceBid(p, id, bid);
    }

    /** The four branches of a bid. */
    method PlaceBid(p: Player, id: HouseId, bid: nat)
      requires Safe(View()) && p in banks && id in houses && bid < U64 && houses[id].internalBid < U64
      modifies this
      ensures View() == AfterBid64(old(View()), p, id, bid)
    {
      Bounds(View(), p, id);
      var h, name := houses[id], names.of[p];
      if h.bidderName == "" {
        var ok := ProcessBankAuction(p, id, bid, false);
        if ok {
          houses := houses[id := h.(highestBid := 0, internalBid := bid, holderLimit := bid,
                                    bidderName := name, bidder := Some(p))];
        }
      } else if h.bidderName == name {
        var ok := ProcessBankAuction(p, id, bid, true);
        if ok {
          houses := houses[id := h.(internalBid := bid, holderLimit := bid)];
        }
      } else if bid <= h.internalBid {
        houses := houses[id := h.(highestBid := bid)];
      } else {
        var ok := ProcessBankAuction(p, id, bid, false);
        if ok {
          houses := houses[id := h.(highestBid := h.internalBid + 1, internalBid := bid,
                                    holderLimit := bid, bidderName := name, bidder := Some(p))];
        }
      }
    }

    method Transfer(p: Player, id: HouseId, typed: string, price: nat, allowed: bool)
      modifies this`houses
      ensures View() == AfterOffer(old(View()), p, id, typed, price, allowed)
      ensures Kept(old(View()), Offer(p, id, typed, price, allowed), View())
    {
      StepKept(View(), Offer(p, id, typed, price, allowed));
      var newOwner := GetPlayerByName(typed);
      if p !in banks || newOwner == None || id !in houses || houses[id].state != Rented {
        return;
      }
      if houses[id].owner != p || newOwner == Some(p) || !allowed {
        return;
      }
      houses := houses[id := houses[id].(bidderName := typed, bidder := newOwner, internalBid := price,
                                         state := HouseState.Transfer)];
    }

    /** The refund shared by `CancelTransfer` and `RejectTransfer`. */
    method Refund(id: HouseId)
      requires Safe(View()) && id in houses && houses[id].state == HouseState.Transfer
      modifies this
      ensures View() == Undo(old(View()), id)
    {
      PayBack(id);
      houses := houses[id := houses[id].(bidderName := "", bidder := None, internalBid := 0, state := Rented,
                                         accepted := false)];
    }

    method PayBack(id: HouseId)
      requires Safe(View()) && id in houses && houses[id].state == HouseState.Transfer
      modifies this`banks
      ensures banks == if houses[id].accepted then Credit(old(banks), houses[id].bidder, Price(houses[id]))
                       else old(banks)
    {
      var h := houses[id];
      if h.accepted && h.bidder.Some? && h.bidder.value in banks {
        RefundFits(View(), id);
        var amountPaid := W(h.internalBid + h.rent);
        banks := banks[h.bidder.value := W(banks[h.bidder.value] + amountPaid)];
      }
    }

    method CancelTransfer(p: Player, id: HouseId)
      requires Safe(View())
      modifies this
      ensures View() == AfterCancel(old(View()), p, id)
      ensures Kept(old(View()), Cancel(p, id), View())
    {
      StepKept(View(), Cancel(p, id));
      if id !in houses || houses[id].state != HouseState.Transfer || houses[id].owner != p {
        return;
      }
      Refund(id);
    }

    method RejectTransfer(p: Player, id: HouseId)
      requires Safe(View())
      modifies this
      ensures View() == AfterReject(old(View()), p, id)
      ensures Kept(old(View()), Reject(p, id), View())
    {
      StepKept(View(), Reject(p, id));
      if id !in houses || houses[id].bidder != Some(p) || houses[id].state != HouseState.Transfer {
        return;
      }
      Refund(id);
    }

    method AcceptTransfer(p: Player, id: HouseId, allowed: bool)
      requires Safe(View()) && (id in houses ==> houses[id].internalBid < U64)
      modifies this
      ensures View() == AfterAccept(old(View()), p, id, allowed)
      ensures Kept(old(View()), Accept(p, id, allowed), View())
    {
      StepKept(View(), Accept(p, id, allowed));
      if p !in banks || id !in houses || houses[id].state != HouseState.Transfer {
        return;
      }
      if houses[id].bidder == Some(p) && allowed {
        PayForTransfer(p, id);
      }
    }

    /** The balance check of `canAcceptTransferHouse`, and the payment. */
    method PayForTransfer(p: Player, id: HouseId)
      requires Safe(View()) && p in banks && id in houses && houses[id].internalBid < U64
      requires houses[id].state == HouseState.Transfer && houses[id].bidder == Some(p)
      modifies this
      ensures View() == AfterAccept(old(View()), p, id, true)
    {
      var h := houses[id];
      Bounds(View(), p, id);
      assert SafeHouse(View(), h);
      if banks[p] < W(h.rent + h.internalBid) || h.accepted {
        return;
      }
      var ok := ProcessBankAuction(p, id, h.internalBid, false);
      if ok {
        houses := houses[id := h.(accepted := true)];
      }
    }

    method MoveOut(p: Player, id: HouseId)
      modifies this`houses
      ensures View() == ChangeState(old(View()), p, id, Rented, HouseState.MoveOut)
      ensures Kept(old(View()), Leave(p, id), View())
    {
      StepKept(View(), Leave(p, id));
      if id !in houses || houses[id].state != Rented || houses[id].owner != p {
        return;
      }
      houses := houses[id := houses[id].(state := HouseState.MoveOut)];
    }

    method CancelMoveOut(p: Player, id: HouseId)
      modifies this`houses
      ensures View() == ChangeState(old(View()), p, id, HouseState.MoveOut, Rented)
      ensures Kept(old(View()), Stay(p, id), View())
    {
      StepKept(View(), Stay(p, id));
      if id !in houses || houses[id].state != HouseState.MoveOut || houses[id].owner != p {
        return;
      }
      houses := houses[id := houses[id].(state := Rented)];
    }
  }

  /** A payment that is covered: the debit, and the credit to another name. */
  lemma PaymentOf(ns: Names, banks: map<Player, int>, p: Player, h: House, bid: nat)
    requires p in banks && p in ns.of && banks[p] >= h.rent + bid
    ensures var paid := banks[p := banks[p] - (h.rent + bid)];
            AuctionPayment(ns, banks, p, h, bid, false)
            == Some(if h.bidderName == ns.of[p] then paid
                    else Credit(paid, Find(ns, h.bidderName), Due(h)))
  {
  }

  /** The refund of an accepted transfer fits, too. */
  lemma RefundFits(w: World, id: HouseId)
    requires Safe(w) && id in w.houses && w.houses[id].state == Transfer && w.houses[id].accepted
    requires w.houses[id].bidder.Some? && w.houses[id].bidder.value in w.banks
    ensures var h := w.houses[id];
            W(w.banks[h.bidder.value] + W(h.internalBid + h.rent)) == w.banks[h.bidder.value] + Price(h)
  {
    Bounds(w, w.houses[id].bidder.value, id);
    assert SafeHouse(w, w.houses[id]);
  }

  /** After a bidder has paid, any account can still be credited. */
  lemma CreditFitsAll(w: World, p: Player, id: HouseId, bid: nat, paid: map<Player, int>)
    requires Safe(w) && p in w.banks && id in w.houses && w.banks[p] >= w.houses[id].rent + bid
    requires paid == w.banks[p := w.banks[p] - (w.houses[id].rent + bid)]
    ensures Creditable(paid, w.houses[id])
  {
    var h := w.houses[id];
    forall x | x in paid
      ensures W(paid[x] + W(Due(h))) == paid[x] + Due(h)
    {
      Bounds(w, x, id);
      assert 0 <= paid[x] <= w.banks[x];
      CreditFits(w, id, paid[x]);
    }
  }
}
