/** Auctions and mail: bids, sales, cancellations and timeouts pay out through mail, from which money
    and items are claimed, returned or thrown away. */
module Ledger {
  import opened Options
  import opened Totals

  const MAX_SALES := 5
  const MAX_BIDS := 5
  const MAIL_MAX_ITEM := 5

  /** An item as the auction and attachment tables hold it. */
  datatype Item = Item(nameid: nat, amount: int, identify: int, detail: int)

  datatype Auction = Auction(seller: int, buyer: int, price: int, buynow: int, item: Item)

  datatype Status = New | Unread | Read
  datatype Inbox = Normal | Account | Returned

  datatype Mail = Mail(sender: int, dest: int, zeny: int, status: Status, inbox: Inbox)

  /** An empty slot is no item. */
  function Piece(x: Item): multiset<Item> { if x.nameid == 0 then multiset{} else multiset{x} }

  // ----- what is held where

  function Escrow(): Auction -> int { (a: Auction) => if a.buyer != 0 then a.price else 0 }
  function OnSale(): Auction -> multiset<Item> { (a: Auction) => Piece(a.item) }
  function SoldBy(c: int): Auction -> int { (a: Auction) => if a.seller == c then 1 else 0 }
  function BidBy(c: int): Auction -> int { (a: Auction) => if a.buyer == c then 1 else 0 }
  function Zeny(): Mail -> int { (m: Mail) => m.zeny }
  function Attached(): seq<Item> -> multiset<Item> { (s: seq<Item>) => multiset(s) }

  /** What has crossed the border of the char-server: into it, out of it, and what it threw away; and the
      messages whose money, or items, were claimed. */
  datatype Flow = Flow(zenyIn: int, zenyOut: int, zenyLost: int,
                       itemsIn: multiset<Item>, itemsOut: multiset<Item>, itemsLost: multiset<Item>,
                       zenyPaid: set<nat>, itemsPaid: set<nat>)

  const NO_FLOW := Flow(0, 0, 0, multiset{}, multiset{}, multiset{}, {}, {})

  /** What was claimed is gone from the message for good. */
  ghost predicate PaidOnce(mails: map<nat, Mail>, attachments: map<nat, seq<Item>>, flow: Flow, nextMail: nat) {
    && (forall k | k in flow.zenyPaid :: k < nextMail && (k in mails ==> mails[k].zeny <= 0))
    && (forall k | k in flow.itemsPaid :: k < nextMail && k !in attachments)
  }

  lemma SamePaid(mails: map<nat, Mail>, attachments: map<nat, seq<Item>>, flow: Flow, flow': Flow, nextMail: nat)
    requires PaidOnce(mails, attachments, flow, nextMail)
    requires flow'.zenyPaid == flow.zenyPaid && flow'.itemsPaid == flow.itemsPaid
    ensures PaidOnce(mails, attachments, flow', nextMail)
  {}

  /** Some item is there in a positive amount. */
  predicate Worth(items: seq<Item>) {
    exists i | 0 <= i < |items| :: items[i].amount > 0
  }

  /** Attachment rows of one mail. */
  predicate Stored(items: seq<Item>) {
    |items| <= MAIL_MAX_ITEM && forall i | 0 <= i < |items| :: items[i].nameid != 0
  }

  function WithItem(attachments: map<nat, seq<Item>>, id: nat, x: Item): map<nat, seq<Item>> {
    if x.nameid == 0 then attachments else attachments[id := [x]]
  }

  ghost predicate WithinLimits(auctions: map<nat, Auction>) {
    forall c: int :: Total(auctions, SoldBy(c)) <= MAX_SALES && (c != 0 ==> Total(auctions, BidBy(c)) <= MAX_BIDS)
  }

  /** The auctions a player sells, and those they lead. */
  function Sales(auctions: map<nat, Auction>, c: int): set<nat> { set k | k in auctions && auctions[k].seller == c }
  function Leads(auctions: map<nat, Auction>, c: int): set<nat> { set k | k in auctions && auctions[k].buyer == c }

  lemma SalesCounted(auctions: map<nat, Auction>, c: int)
    ensures Total(auctions, SoldBy(c)) == |Sales(auctions, c)| && Total(auctions, BidBy(c)) == |Leads(auctions, c)|
  {
    SoldCounted(auctions, c);
    LedCounted(auctions, c);
  }

  lemma SoldCounted(auctions: map<nat, Auction>, c: int)
    ensures Total(auctions, SoldBy(c)) == |Sales(auctions, c)|
  {
    hide Total;
    var sells := (a: Auction) => a.seller == c;
    TotalCounts(auctions, sells, SoldBy(c));
    assert Where(auctions, sells) == Sales(auctions, c);
  }

  lemma LedCounted(auctions: map<nat, Auction>, c: int)
    ensures Total(auctions, BidBy(c)) == |Leads(auctions, c)|
  {
    hide Total;
    var leads := (a: Auction) => a.buyer == c;
    TotalCounts(auctions, leads, BidBy(c));
    assert Where(auctions, leads) == Leads(auctions, c);
  }

  /** Counted one by one: nobody sells or leads more than five auctions. */
  lemma LimitsMean(auctions: map<nat, Auction>)
    ensures WithinLimits(auctions) <==> forall c :: |Sales(auctions, c)| <= 5 && (c != 0 ==> |Leads(auctions, c)| <= 5)
  {
    forall c: int
      ensures Total(auctions, SoldBy(c)) == |Sales(auctions, c)| && Total(auctions, BidBy(c)) == |Leads(auctions, c)|
    {
      SalesCounted(auctions, c);
    }
    hide Total, Sales, Leads;
  }

  lemma LimitsWithout(auctions: map<nat, Auction>, id: nat)
    requires id in auctions && WithinLimits(auctions)
    ensures WithinLimits(auctions - {id})
  {
    forall c: int
      ensures Total(auctions - {id}, SoldBy(c)) <= MAX_SALES && (c != 0 ==> Total(auctions - {id}, BidBy(c)) <= MAX_BIDS)
    {
      TotalOut(auctions, id, SoldBy(c));
      TotalOut(auctions, id, BidBy(c));
    }
  }

  lemma LimitsNew(auctions: map<nat, Auction>, id: nat, a: Auction)
    requires id !in auctions && WithinLimits(auctions) && Total(auctions, SoldBy(a.seller)) < MAX_SALES
    ensures WithinLimits(auctions[id := a]) <==> a.buyer == 0 || Total(auctions, BidBy(a.buyer)) < MAX_BIDS
  {
    TotalPut(auctions, id, a, BidBy(a.buyer));
    if a.buyer == 0 || Total(auctions, BidBy(a.buyer)) < MAX_BIDS {
      forall c: int
        ensures Total(auctions[id := a], SoldBy(c)) <= MAX_SALES && (c != 0 ==> Total(auctions[id := a], BidBy(c)) <= MAX_BIDS)
      {
        TotalPut(auctions, id, a, SoldBy(c));
        TotalPut(auctions, id, a, BidBy(c));
      }
    }
  }

  /** A further standing bid of somebody with fewer than five, or who already leads this auction. */
  lemma LimitsBid(auctions: map<nat, Auction>, id: nat, buyer: int, bid: int)
    requires id in auctions && WithinLimits(auctions)
    requires Total(auctions, BidBy(buyer)) < MAX_BIDS || auctions[id].buyer == buyer
    ensures WithinLimits(auctions[id := auctions[id].(buyer := buyer, price := bid)])
  {
    var a := auctions[id].(buyer := buyer, price := bid);
    forall c: int
      ensures Total(auctions[id := a], SoldBy(c)) <= MAX_SALES && (c != 0 ==> Total(auctions[id := a], BidBy(c)) <= MAX_BIDS)
    {
      TotalPut(auctions, id, a, SoldBy(c));
      TotalPut(auctions, id, a, BidBy(c));
    }
  }

  class Ledger {
    var auctions: map<nat, Auction>
    var mails: map<nat, Mail>
    var attachments: map<nat, seq<Item>>
    var nextAuction: nat
    var nextMail: nat
    ghost var flow: Flow

    ghost predicate Valid()
      reads this
    {
      && (forall k | k in auctions :: 0 < k < nextAuction)
      && (forall k | k in mails :: 0 < k < nextMail)
      && (forall k | k in attachments :: k in mails && Stored(attachments[k]))
      && 0 < nextAuction && 0 < nextMail
      && (forall k | k in auctions :: auctions[k].buyer >= 0)
      && PaidOnce(mails, attachments, flow, nextMail)
    }

    /** Money held for standing bids and lying in mail; items on sale and lying in mail. */
    ghost function Held(): int
      reads this`auctions
    {
      Total(auctions, Escrow())
    }

    ghost function MailZeny(): int
      reads this`mails
    {
      Total(mails, Zeny())
    }

    ghost function Selling(): multiset<Item>
      reads this`auctions
    {
      Union(auctions, OnSale())
    }

    ghost function MailItems(): multiset<Item>
      reads this`attachments
    {
      Union(attachments, Attached())
    }

    /** Money: all that came in is held for an auction, lies in mail, has gone out or was thrown away. */
    ghost predicate ZenyKept()
      reads this
    {
      flow.zenyIn == Held() + MailZeny() + flow.zenyOut + flow.zenyLost
    }

    /** Items: all that came in are on sale, lie in mail, have gone out or were thrown away. */
    ghost predicate ItemsKept()
      reads this
    {
      flow.itemsIn == Selling() + MailItems() + flow.itemsOut + flow.itemsLost
    }

    /** Nobody sells or bids on more than five auctions. */
    ghost predicate Limits()
      reads this`auctions
    {
      WithinLimits(auctions)
    }

    ghost predicate Sound()
      reads this
    {
      Valid() && ZenyKept() && ItemsKept() && Limits()
    }

    constructor ()
      ensures Sound() && auctions == map[] && mails == map[] && flow == NO_FLOW
    {
      auctions, mails, attachments, nextAuction, nextMail := map[], map[], map[], 1, 1;
      flow := NO_FLOW;
    }

    // ----- mail

    /** `mail_savemessage`: empty slots are left out, and a message without items has no attachment rows. */
    method SaveMessage(m: Mail, items: seq<Item>) returns (id: nat)
      requires Valid() && |items| <= MAIL_MAX_ITEM
      modifies this`mails, this`attachments, this`nextMail
      ensures Valid() && id == old(nextMail) && nextMail == id + 1
      ensures mails == old(mails)[id := m]
      ensures attachments == if NonEmpty(items) == [] then old(attachments) else old(attachments)[id := NonEmpty(items)]
      ensures MailZeny() == old(MailZeny()) + m.zeny
      ensures MailItems() == old(MailItems()) + multiset(NonEmpty(items))
    {
      hide Total, Union, NonEmpty;
      id := nextMail;
      TotalPut(mails, id, m, Zeny());
      mails, nextMail := mails[id := m], id + 1;
      var found := Filled(items);
      FilledIsStored(items);
      UnionPut(attachments, id, found, Attached());
      if found != [] { attachments := attachments[id := found]; }
    }

    /** `mail_sendmail` from the server, with money or one item. */
    method SendMail(dest: int, zeny: int, item: Option<Item>)
      requires Valid()
      modifies this`mails, this`attachments, this`nextMail
      ensures Valid() && nextMail == old(nextMail) + 1
      ensures mails == old(mails)[old(nextMail) := Mail(0, dest, zeny, New, Normal)]
      ensures attachments ==
              if item.None? then old(attachments) else WithItem(old(attachments), old(nextMail), item.value)
      ensures MailZeny() == old(MailZeny()) + zeny
      ensures MailItems() ==
              old(MailItems()) + (if item.None? then multiset{} else Piece(item.value))
    {
      hide Total, Union;
      var items := if item.None? then [] else [item.value];
      OneItem(items);
      var id := SaveMessage(Mail(0, dest, zeny, New, Normal), items);
    }

    lemma FreshMail()
      requires Valid()
      ensures Fresh(mails, attachments, nextMail)
    {}

    // ----- auctions

    /** `auction_count`. */
    method AuctionCount(c: int, buy: bool) returns (n: int)
      ensures n == Total(auctions, if buy then BidBy(c) else SoldBy(c))
      ensures n == |if buy then Leads(auctions, c) else Sales(auctions, c)|
    {
      SalesCounted(auctions, c);
      hide Sales, Leads;
      ghost var f := if buy then BidBy(c) else SoldBy(c);
      n := 0;
      var rest := auctions;
      NoRows<Auction>(f);
      while rest.Keys != {}
        invariant n + Total(rest, f) == Total(auctions, f)
        decreases |rest|
      {
        var k :| k in rest.Keys;
        TotalOut(rest, k, f);
        Fewer(rest, k);
        if (buy && rest[k].buyer == c) || (!buy && rest[k].seller == c) { n := n + 1; }
        rest := rest - {k};
      }
      NoRows<Auction>(f);
      assert rest == map[];
    }

    /** `auction_delete`: what was held for the auction is released. */
    method DeleteAuction(id: nat)
      requires Valid() && id in auctions
      modifies this`auctions
      ensures Valid() && auctions == old(auctions) - {id}
      ensures old(Held()) == Held() + Escrow()(old(auctions)[id])
      ensures old(Selling()) == Selling() + Piece(old(auctions)[id].item)
      ensures old(Limits()) ==> Limits()
    {
      hide Total, Union, WithinLimits;
      TotalOut(auctions, id, Escrow());
      UnionOut(auctions, id, OnSale());
      if Limits() { LimitsWithout(auctions, id); }
      auctions := auctions - {id};
    }

    /** `mapif_parse_Auction_register`; 0 refuses the auction.  A packet that names a bidder is taken to bring
        the price along, and could give that bidder one auction too many. */
    method Register(a: Auction) returns (id: nat)
      requires Sound()
      modifies this
      ensures ZenyKept() && ItemsKept() && mails == old(mails) && attachments == old(attachments)
      ensures Valid() <==> id == 0 || a.buyer >= 0
      ensures Limits() <==> id == 0 || a.buyer == 0 || old(Total(auctions, BidBy(a.buyer))) < MAX_BIDS
      ensures id == 0 <==> old(Total(auctions, SoldBy(a.seller))) >= MAX_SALES
      ensures id == 0 ==> auctions == old(auctions) && flow == old(flow)
      ensures id != 0 ==>
                && id in auctions && id !in old(auctions) && auctions == old(auctions)[id := auctions[id]]
                && auctions[id] == a.(item := a.item.(amount := 1, identify := 1))
                && flow == old(flow).(zenyIn := old(flow.zenyIn) + Escrow()(a), itemsIn := old(flow.itemsIn) + Piece(Listed(a.item)))
    {
      hide Total, Union, WithinLimits, PaidOnce;
      var n := AuctionCount(a.seller, false);
      if n >= MAX_SALES { return 0; }
      id := nextAuction;
      var b := a.(item := Listed(a.item));
      TotalPut(auctions, id, b, Escrow());
      UnionPut(auctions, id, b, OnSale());
      LimitsNew(auctions, id, b);
      auctions, nextAuction := auctions[id := b], id + 1;
      flow := flow.(zenyIn := flow.zenyIn + Escrow()(b), itemsIn := flow.itemsIn + Piece(b.item));
      assert auctions[id].buyer == a.buyer;
      assert PaidOnce(mails, attachments, flow, nextMail) by { SamePaid(mails, attachments, old(flow), flow, nextMail); }
    }

    /** The timer of an auction runs out: its item goes to the bidder and the money to the seller, or
        the item back to the seller. */
    method EndTimer(id: nat)
      requires Sound()
      modifies this
      ensures Sound() && flow == old(flow) && auctions == old(auctions) - {id}
      ensures id !in old(auctions) ==> mails == old(mails) && attachments == old(attachments)
      ensures id in old(auctions) ==>
                var a := old(auctions)[id];
                if a.buyer != 0 then Delivered(a.item, a.buyer, a.seller, a.price, old(mails), old(attachments), old(nextMail), mails, attachments)
                else GivenBack(a, old(mails), old(attachments), old(nextMail), mails, attachments)
      ensures id in old(auctions) ==>
                var a := old(auctions)[id];
                Gains(old(mails), old(attachments), mails, attachments,
                      a.seller, if a.buyer != 0 then a.price else 0, if a.buyer != 0 then a.buyer else a.seller, a.item)
    {
      hide Total, Union, Limits, Held, MailZeny, Selling, MailItems, WithItem, Delivered, GivenBack, Gains;
      if id in auctions {
        FreshMail();
        var a := auctions[id];
        if a.buyer != 0 {
          Deliver(a.item, a.buyer, a.seller, a.price);
          DeliveredGains(a.item, a.buyer, a.seller, a.price, old(mails), old(attachments), old(nextMail), mails, attachments);
        } else {
          GiveBack(a);
          GivenBackGains(a, old(mails), old(attachments), old(nextMail), mails, attachments);
        }
        DeleteAuction(id);
      }
    }

    method Deliver(x: Item, buyer: int, seller: int, price: int)
      requires Valid()
      modifies this`mails, this`attachments, this`nextMail
      ensures Valid() && Delivered(x, buyer, seller, price, old(mails), old(attachments), old(nextMail), mails, attachments)
      ensures MailZeny() == old(MailZeny()) + price && MailItems() == old(MailItems()) + Piece(x)
    {
      hide Total, Union, MailZeny, MailItems, WithItem;
      SendMail(buyer, 0, Some(x));
      SendMail(seller, price, None);
    }

    method GiveBack(a: Auction)
      requires Valid()
      modifies this`mails, this`attachments, this`nextMail
      ensures Valid() && GivenBack(a, old(mails), old(attachments), old(nextMail), mails, attachments)
      ensures MailZeny() == old(MailZeny()) && MailItems() == old(MailItems()) + Piece(a.item)
    {
      hide Total, Union, MailZeny, MailItems, WithItem;
      SendMail(a.seller, 0, Some(a.item));
    }

    /** `mapif_parse_Auction_cancel`: 0 done, 1 no such auction, 2 not the seller, 3 there is a bidder. */
    method Cancel(c: int, id: nat) returns (result: nat)
      requires Sound()
      modifies this
      ensures Sound() && flow == old(flow)
      ensures result == (if id !in old(auctions) then 1 else if old(auctions)[id].seller != c then 2
                         else if old(auctions)[id].buyer > 0 then 3 else 0)
      ensures result != 0 ==> auctions == old(auctions) && mails == old(mails) && attachments == old(attachments)
      ensures result == 0 ==>
                auctions == old(auctions) - {id} && GivenBack(old(auctions)[id], old(mails), old(attachments), old(nextMail), mails, attachments)
      ensures result == 0 ==>
                var a := old(auctions)[id];
                Gains(old(mails), old(attachments), mails, attachments, c, 0, c, a.item)
    {
      hide Total, Union, Limits, Held, MailZeny, Selling, MailItems, GivenBack, Gains;
      if id !in auctions { return 1; }
      var a := auctions[id];
      if a.seller != c { return 2; }
      if a.buyer > 0 { return 3; }
      FreshMail();
      GiveBack(a);
      GivenBackGains(a, old(mails), old(attachments), old(nextMail), mails, attachments);
      DeleteAuction(id);
      return 0;
    }

    /** `mapif_parse_Auction_close`: 0 done, 1 not the seller or no bidder, 2 no such auction. */
    method Close(c: int, id: nat) returns (result: nat)
      requires Sound()
      modifies this
      ensures Sound() && flow == old(flow)
      ensures result == (if id !in old(auctions) then 2
                         else if old(auctions)[id].seller != c || old(auctions)[id].buyer == 0 then 1 else 0)
      ensures result != 0 ==> auctions == old(auctions) && mails == old(mails) && attachments == old(attachments)
      ensures result == 0 ==>
                var a := old(auctions)[id];
                && auctions == old(auctions) - {id}
                && attachments == WithItem(old(attachments), old(nextMail) + 1, a.item)
                && mails == old(mails)[old(nextMail) := Mail(0, a.seller, a.price, New, Normal)]
                                      [old(nextMail) + 1 := Mail(0, a.buyer, 0, New, Normal)]
      ensures result == 0 ==>
                var a := old(auctions)[id];
                Gains(old(mails), old(attachments), mails, attachments, c, a.price, a.buyer, a.item)
    {
      hide Total, Union, Limits, Held, MailZeny, Selling, MailItems, WithItem, Gains, PaidOnce;
      if id !in auctions { return 2; }
      var a := auctions[id];
      if a.seller != c || a.buyer == 0 { return 1; }
      FreshMail();
      SendMail(a.seller, a.price, None);
      SendMail(a.buyer, 0, Some(a.item));
      ClosedGains(a, old(mails), old(attachments), old(nextMail));
      DeleteAuction(id);
      return 0;
    }

    /** Why a bid is turned down: 0 too low, one's own or nothing to bid on, 9 too many standing bids;
        1 if it stands. */
    ghost function Verdict(c: int, id: nat, bid: int): nat
      reads this`auctions
    {
      if id !in auctions || auctions[id].price >= bid || auctions[id].seller == c then 0
      else if Total(auctions, BidBy(c)) > 4 && bid < auctions[id].buynow && auctions[id].buyer != c then 9
      else 1
    }

    /** The former bidder, if any, gets the money back. */
    method Refund(a: Auction)
      requires Valid() && a.buyer >= 0
      modifies this`mails, this`nextMail, this`attachments
      ensures Valid() && attachments == old(attachments)
      ensures mails == Refunded(a, old(mails), old(nextMail)) && nextMail == old(nextMail) + (if a.buyer > 0 then 1 else 0)
      ensures MailZeny() == old(MailZeny()) + Escrow()(a) && MailItems() == old(MailItems())
    {
      hide Total, Union, MailZeny, MailItems;
      if a.buyer > 0 { SendMail(a.buyer, a.price, None); }
    }

    /** `mapif_parse_Auction_bid`.  The map-server has taken `bid` from the player and gives `back`. */
    method Bid(c: int, id: nat, bid: int) returns (result: nat, back: int)
      requires Sound() && c > 0
      modifies this
      ensures Sound() && result == old(Verdict(c, id, bid))
      ensures flow == old(flow).(zenyIn := old(flow.zenyIn) + bid, zenyOut := old(flow.zenyOut) + back)
      ensures result != 1 ==> back == bid && auctions == old(auctions) && mails == old(mails) && attachments == old(attachments)
      ensures result == 1 ==>
                var a := old(auctions)[id];
                var mails1 := Refunded(a, old(mails), old(nextMail));
                if bid < a.buynow then
                  && back == 0 && auctions == old(auctions)[id := a.(buyer := c, price := bid)]
                  && mails == mails1 && attachments == old(attachments)
                else
                  && back == bid - a.buynow && auctions == old(auctions) - {id}
                  && Delivered(a.item, c, a.seller, a.buynow, mails1, old(attachments), old(nextMail) + (if a.buyer > 0 then 1 else 0), mails, attachments)
      ensures result == 1 ==> BidPays(old(auctions)[id], c, bid, old(mails), old(attachments), mails, attachments)
      ensures
        if id !in old(auctions) || old(auctions)[id].price >= bid || old(auctions)[id].seller == c then result == 0
        else if bid >= old(auctions)[id].buynow || old(auctions)[id].buyer == c || |Leads(old(auctions), c)| < 5 then result == 1
        else result == 9
    {
      hide Total, Union, WithinLimits, MailZeny, MailItems, WithItem, Delivered, Refunded, PaidOnce, BidPays;
      FreshMail();
      SalesCounted(auctions, c);
      hide Leads, Sales;
      Pass(bid, 0);
      result, back := 0, bid;
      if id in auctions && auctions[id].price < bid && auctions[id].seller != c {
        var n := AuctionCount(c, true);
        if n > 4 && bid < auctions[id].buynow && auctions[id].buyer != c {
          result := 9;
        } else {
          result := 1;
          back := PlaceBid(c, id, bid);
          BidGains(old(auctions)[id], c, bid, old(mails), old(attachments), old(nextMail), mails, attachments);
        }
      }
      Pass(0, back);
    }

    /** Money comes in from the map-server, or goes out to it. */
    ghost method Pass(zenyIn: int, zenyOut: int)
      requires Valid()
      modifies this`flow
      ensures Valid() && flow == old(flow).(zenyIn := old(flow.zenyIn) + zenyIn, zenyOut := old(flow.zenyOut) + zenyOut)
    {
      flow := flow.(zenyIn := flow.zenyIn + zenyIn, zenyOut := flow.zenyOut + zenyOut);
    }

    /** The accepted bid. */
    method PlaceBid(c: int, id: nat, bid: int) returns (back: int)
      requires Valid() && Limits() && c > 0 && id in auctions && auctions[id].price < bid
      requires bid < auctions[id].buynow ==> Total(auctions, BidBy(c)) < MAX_BIDS || auctions[id].buyer == c
      modifies this`auctions, this`mails, this`attachments, this`nextMail
      ensures Valid() && Limits()
      ensures Held() + MailZeny() + back == old(Held()) + old(MailZeny()) + bid
      ensures Selling() + MailItems() == old(Selling()) + old(MailItems())
      ensures
        var a := old(auctions)[id];
        var mails1 := Refunded(a, old(mails), old(nextMail));
        if bid < a.buynow then
          && back == 0 && auctions == old(auctions)[id := a.(buyer := c, price := bid)]
          && mails == mails1 && attachments == old(attachments)
        else
          && back == bid - a.buynow && auctions == old(auctions) - {id}
          && Delivered(a.item, c, a.seller, a.buynow, mails1, old(attachments), old(nextMail) + (if a.buyer > 0 then 1 else 0), mails, attachments)
    {
      hide Total, Union, WithinLimits, MailZeny, MailItems, WithItem, Delivered, Refunded;
      var a := auctions[id];
      Refund(a);
      if bid >= a.buynow {
        LimitsWithout(auctions, id);
      } else {
        LimitsBid(auctions, id, c, bid);
      }
      SetBid(id, c, bid);
      back := 0;
      if bid >= a.buynow {
        back := bid - a.buynow;
        Deliver(a.item, c, a.seller, a.buynow);
        DeleteAuction(id);
        assert auctions == old(auctions) - {id};
      }
    }

    method SetBid(id: nat, c: int, bid: int)
      requires Valid() && id in auctions && auctions[id].price < bid && c > 0
      modifies this`auctions
      ensures Valid() && auctions == old(auctions)[id := old(auctions)[id].(buyer := c, price := bid)]
      ensures Held() == old(Held()) - Escrow()(old(auctions)[id]) + bid && Selling() == old(Selling())
    {
      hide Total, Union;
      var b := auctions[id].(buyer := c, price := bid);
      TotalPut(auctions, id, b, Escrow());
      UnionOut(auctions, id, OnSale());
      UnionPut(auctions - {id}, id, b, OnSale());
      assert (auctions - {id})[id := b] == auctions[id := b];
      auctions := auctions[id := b];
    }

    // ----- the mailbox

    /** The attachments of a message, as `mail_loadmessage` reads them. */
    function Items(id: nat): seq<Item>
      reads this`attachments
    {
      if id in attachments then attachments[id] else []
    }

    /** Removing a message with its attachments. */
    method RemoveMail(id: nat)
      requires Valid()
      modifies this`mails, this`attachments
      ensures Valid() && mails == old(mails) - {id} && attachments == old(attachments) - {id}
      ensures old(MailZeny()) == MailZeny() + (if id in old(mails) then old(mails)[id].zeny else 0)
      ensures old(MailItems()) == MailItems() + multiset(old(Items(id)))
    {
      hide Total, Union;
      if id in mails { TotalOut(mails, id, Zeny()); } else { assert mails - {id} == mails; }
      mails := mails - {id};
      DropItems(id);
    }

    /** `mail_DeleteAttach`. */
    method DropItems(id: nat)
      modifies this`attachments
      ensures attachments == old(attachments) - {id}
      ensures old(MailItems()) == MailItems() + multiset(old(Items(id)))
    {
      hide Total, Union;
      if id in attachments { UnionOut(attachments, id, Attached()); } else { assert attachments - {id} == attachments; }
      attachments := attachments - {id};
    }

    method TakeZeny(id: nat)
      requires Valid() && id in mails
      modifies this`mails
      ensures Valid() && mails == old(mails)[id := old(mails)[id].(zeny := 0)]
      ensures old(MailZeny()) == MailZeny() + old(mails)[id].zeny
    {
      hide Total, Union;
      TotalPut(mails, id, mails[id].(zeny := 0), Zeny());
      mails := mails[id := mails[id].(zeny := 0)];
    }

    /** A reader may claim what a read message of their own holds. */
    ghost predicate Claimable(c: int, id: nat)
      reads this`mails
    {
      id in mails && mails[id].dest == c && mails[id].status == Read
    }

    ghost function ZenyDue(c: int, id: nat, wantZeny: bool): int
      reads this`mails
    {
      if wantZeny && Claimable(c, id) && mails[id].zeny > 0 then mails[id].zeny else 0
    }

    /** All attached items, unless none has a positive amount. */
    ghost function ItemsDue(c: int, id: nat, wantItem: bool): seq<Item>
      reads this`mails, this`attachments
    {
      if wantItem && Claimable(c, id) && Worth(Items(id)) then Items(id) else []
    }

    /** The receiver of a read message is due its money if positive, and its items if one has a positive amount. */
    lemma DueMeans(c: int, id: nat, want: bool)
      ensures
        var own := id in mails && mails[id].dest == c && mails[id].status == Read;
        && ZenyDue(c, id, want) == (if want && own && mails[id].zeny > 0 then mails[id].zeny else 0)
        && ItemsDue(c, id, want)
           == (if want && own && exists i :: 0 <= i < |Items(id)| && Items(id)[i].amount > 0 then Items(id) else [])
    {}

    /** `mapif_Mail_getattach`: what is handed out is no longer there. */
    method GetAttach(c: int, id: nat, wantZeny: bool, wantItem: bool) returns (zeny: int, items: seq<Item>)
      requires Sound()
      modifies this
      ensures Sound() && auctions == old(auctions)
      ensures flow == old(flow).(zenyOut := old(flow.zenyOut) + zeny, itemsOut := old(flow.itemsOut) + multiset(items),
                                 zenyPaid := old(flow.zenyPaid) + (if zeny != 0 then {id} else {}),
                                 itemsPaid := old(flow.itemsPaid) + (if items != [] then {id} else {}))
      ensures zeny != 0 ==> id !in old(flow.zenyPaid)
      ensures items != [] ==> id !in old(flow.itemsPaid)
      ensures zeny == old(ZenyDue(c, id, wantZeny)) && items == old(ItemsDue(c, id, wantItem))
      ensures
        var own := id in old(mails) && old(mails)[id].dest == c && old(mails)[id].status == Read;
        && zeny == (if wantZeny && own && old(mails)[id].zeny > 0 then old(mails)[id].zeny else 0)
        && items == (if wantItem && own && exists i :: 0 <= i < |old(Items(id))| && old(Items(id))[i].amount > 0
                     then old(Items(id)) else [])
      ensures mails == if zeny == 0 || id !in old(mails) then old(mails) else old(mails)[id := old(mails)[id].(zeny := 0)]
      ensures attachments == if items == [] then old(attachments) else old(attachments) - {id}
    {
      hide Total, Union, Items, Limits, MailZeny, MailItems, Held, Selling, ZenyDue, ItemsDue;
      DueMeans(c, id, wantZeny);
      DueMeans(c, id, wantItem);
      NothingLeft(c, id, wantZeny);
      NothingLeft(c, id, wantItem);
      zeny, items := Claim(c, id, wantZeny, wantItem);
      Book(id, zeny, items);
    }

    /** The books after a claim. */
    ghost method Book(id: nat, zeny: int, items: seq<Item>)
      requires id < nextMail || (zeny == 0 && items == [])
      requires zeny != 0 && id in mails ==> mails[id].zeny <= 0
      requires items != [] ==> id !in attachments
      requires Valid()
      modifies this`flow
      ensures Valid()
      ensures flow == old(flow).(zenyOut := old(flow.zenyOut) + zeny, itemsOut := old(flow.itemsOut) + multiset(items),
                                 zenyPaid := old(flow.zenyPaid) + (if zeny != 0 then {id} else {}),
                                 itemsPaid := old(flow.itemsPaid) + (if items != [] then {id} else {}))
    {
      flow := flow.(zenyOut := flow.zenyOut + zeny, itemsOut := flow.itemsOut + multiset(items),
                    zenyPaid := flow.zenyPaid + (if zeny != 0 then {id} else {}),
                    itemsPaid := flow.itemsPaid + (if items != [] then {id} else {}));
    }

    method Claim(c: int, id: nat, wantZeny: bool, wantItem: bool) returns (zeny: int, items: seq<Item>)
      requires Valid()
      modifies this`mails, this`attachments
      ensures Valid() && zeny == old(ZenyDue(c, id, wantZeny)) && items == old(ItemsDue(c, id, wantItem))
      ensures mails == if zeny == 0 || id !in old(mails) then old(mails) else old(mails)[id := old(mails)[id].(zeny := 0)]
      ensures attachments == if items == [] then old(attachments) else old(attachments) - {id}
      ensures old(MailZeny()) == MailZeny() + zeny && old(MailItems()) == MailItems() + multiset(items)
    {
      hide MailZeny, MailItems, Items, Worth;
      zeny, items := 0, [];
      if (!wantZeny && !wantItem) || id !in mails || mails[id].dest != c || mails[id].status != Read { return; }
      if wantZeny { zeny := ClaimZeny(id); }
      if wantItem { items := ClaimItems(id); }
    }

    /** However long ago it was: a message whose money or items were claimed has none to claim any more. */
    lemma NothingLeft(c: int, id: nat, want: bool)
      requires Valid()
      ensures id in flow.zenyPaid ==> ZenyDue(c, id, want) == 0
      ensures id in flow.itemsPaid ==> ItemsDue(c, id, want) == []
      ensures ZenyDue(c, id, want) != 0 || ItemsDue(c, id, want) != [] ==> id in mails && id < nextMail
    {
      assert !Worth([]);
    }

    method ClaimZeny(id: nat) returns (zeny: int)
      requires Valid() && id in mails
      modifies this`mails
      ensures Valid() && zeny == (if old(mails)[id].zeny > 0 then old(mails)[id].zeny else 0)
      ensures mails == if zeny == 0 then old(mails) else old(mails)[id := old(mails)[id].(zeny := 0)]
      ensures old(MailZeny()) == MailZeny() + zeny
    {
      zeny := 0;
      if mails[id].zeny > 0 {
        zeny := mails[id].zeny;
        TakeZeny(id);
      }
    }

    method ClaimItems(id: nat) returns (items: seq<Item>)
      requires Valid()
      modifies this`attachments
      ensures Valid() && items == if Worth(old(Items(id))) then old(Items(id)) else []
      ensures attachments == if items == [] then old(attachments) else old(attachments) - {id}
      ensures old(MailItems()) == MailItems() + multiset(items)
    {
      hide MailItems;
      var i, loaded := 0, Items(id);
      while i < |loaded| && loaded[i].amount <= 0
        invariant i <= |loaded| && forall k | 0 <= k < i :: loaded[k].amount <= 0
      {
        i := i + 1;
      }
      items := [];
      if i < |loaded| {
        items := loaded;
        DropItems(id);
      }
    }

    /** `mapif_parse_Mail_read`. */
    method MarkRead(id: nat)
      requires Sound()
      modifies this`mails
      ensures Sound() && mails == if id in old(mails) then old(mails)[id := old(mails)[id].(status := Read)] else old(mails)
    {
      hide Total, Union;
      if id in mails {
        TotalPut(mails, id, mails[id].(status := Read), Zeny());
        mails := mails[id := mails[id].(status := Read)];
      }
    }

    /** `mapif_Mail_delete`: what the message still holds is thrown away. */
    method DeleteMail(id: nat)
      requires Sound()
      modifies this`mails, this`attachments, this`flow
      ensures Sound() && auctions == old(auctions) && mails == old(mails) - {id} && attachments == old(attachments) - {id}
      ensures flow == old(flow).(zenyLost := old(flow.zenyLost) + (if id in old(mails) then old(mails)[id].zeny else 0),
                                 itemsLost := old(flow.itemsLost) + multiset(old(Items(id))))
    {
      hide Total, Union, Limits, MailZeny, MailItems, Held, Selling;
      var zeny, items := if id in mails then mails[id].zeny else 0, Items(id);
      RemoveMail(id);
      flow := flow.(zenyLost := flow.zenyLost + zeny, itemsLost := flow.itemsLost + multiset(items));
    }

    /** `mapif_Mail_return`: the message goes back to its sender with all it holds; one from the server is
        thrown away.  The answer is the new message, or 0. */
    method ReturnMail(c: int, id: nat) returns (newMail: nat)
      requires Sound()
      modifies this
      ensures Sound() && auctions == old(auctions) && nextMail >= old(nextMail)
      ensures id !in old(mails) || old(mails)[id].dest != c ==>
                newMail == 0 && mails == old(mails) && attachments == old(attachments) && flow == old(flow)
      ensures id in old(mails) && old(mails)[id].dest == c ==>
                var m := old(mails)[id];
                if m.sender == 0 then
                  && newMail == 0 && mails == old(mails) - {id} && attachments == old(attachments) - {id}
                  && flow == old(flow).(zenyLost := old(flow.zenyLost) + m.zeny,
                                        itemsLost := old(flow.itemsLost) + multiset(old(Items(id))))
                else
                  && newMail == old(nextMail) && flow == old(flow)
                  && mails == (old(mails) - {id})[newMail := Mail(m.dest, m.sender, m.zeny, New, Returned)]
                  && Items(newMail) == old(Items(id)) && attachments - {newMail} == old(attachments) - {id}
    {
      hide Total, Union, Limits, MailZeny, MailItems, Held, Selling, NonEmpty;
      if id !in mails || mails[id].dest != c { return 0; }
      var m, items := mails[id], Items(id);
      RemoveMail(id);
      if m.sender == 0 {
        newMail := 0;
        flow := flow.(zenyLost := flow.zenyLost + m.zeny, itemsLost := flow.itemsLost + multiset(items));
      } else {
        newMail := Resend(Mail(m.dest, m.sender, m.zeny, New, Returned), items);
      }
    }

    method Resend(m: Mail, items: seq<Item>) returns (id: nat)
      requires Valid() && Stored(items)
      modifies this`mails, this`attachments, this`nextMail
      ensures Valid() && id == old(nextMail) && nextMail == id + 1
      ensures mails == old(mails)[id := m] && Items(id) == items && attachments - {id} == old(attachments)
      ensures MailZeny() == old(MailZeny()) + m.zeny && MailItems() == old(MailItems()) + multiset(items)
    {
      hide MailZeny, MailItems, NonEmpty;
      StoredIsFilled(items);
      id := SaveMessage(m, items);
    }

    /** `mapif_parse_Mail_send`.  `dest` is the receiver that was looked up, or 0; without one the map-server
        keeps what the player wanted to send. */
    method Send(sender: int, dest: int, zeny: int, items: seq<Item>, inbox: Inbox) returns (id: nat)
      requires Sound() && |items| <= MAIL_MAX_ITEM
      modifies this
      ensures Sound() && auctions == old(auctions) && (id == 0 <==> dest <= 0)
      ensures id == 0 ==> mails == old(mails) && attachments == old(attachments) && flow == old(flow)
      ensures id != 0 ==>
                && mails == old(mails)[id := Mail(sender, dest, zeny, New, inbox)] && id !in old(mails)
                && Items(id) == NonEmpty(items) && attachments - {id} == old(attachments)
                && flow == old(flow).(zenyIn := old(flow.zenyIn) + zeny, itemsIn := old(flow.itemsIn) + multiset(NonEmpty(items)))
    {
      hide Total, Union, Limits, MailZeny, MailItems, Held, Selling, NonEmpty;
      if dest <= 0 { return 0; }
      id := SaveMessage(Mail(sender, dest, zeny, New, inbox), items);
      flow := flow.(zenyIn := flow.zenyIn + zeny, itemsIn := flow.itemsIn + multiset(NonEmpty(items)));
    }

    /** `mail_timer_sub`: the messages found old enough are returned to their senders, or, having been
        returned before, deleted. */
    method ReturnOrDelete(found: seq<nat>, inbox: Inbox)
      requires Sound() && forall i | 0 <= i < |found| :: found[i] in mails
      modifies this
      ensures Sound() && auctions == old(auctions)
      ensures flow.zenyIn == old(flow.zenyIn) && flow.zenyOut == old(flow.zenyOut)
      ensures flow.itemsIn == old(flow.itemsIn) && flow.itemsOut == old(flow.itemsOut)
      ensures flow.zenyPaid == old(flow.zenyPaid) && flow.itemsPaid == old(flow.itemsPaid)
      ensures inbox != Account ==> forall i | 0 <= i < |found| :: found[i] !in mails
      ensures forall k | k in old(mails) && k !in found :: k in mails && mails[k] == old(mails)[k]
      ensures inbox == Normal && (forall i | 0 <= i < |found| :: old(mails)[found[i]].sender != 0) ==> flow == old(flow)
      ensures inbox == Returned ==> mails.Keys <= old(mails).Keys
    {
      hide ZenyKept, ItemsKept, Limits;
      var i := 0;
      while i < |found|
        invariant i <= |found| && Sound() && auctions == old(auctions) && nextMail >= old(nextMail)
        invariant flow.zenyIn == old(flow.zenyIn) && flow.zenyOut == old(flow.zenyOut)
        invariant flow.itemsIn == old(flow.itemsIn) && flow.itemsOut == old(flow.itemsOut)
        invariant flow.zenyPaid == old(flow.zenyPaid) && flow.itemsPaid == old(flow.itemsPaid)
        invariant inbox != Account ==> forall k | 0 <= k < i :: found[k] !in mails
        invariant forall k | k in old(mails) && k in mails :: mails[k] == old(mails)[k]
        invariant forall k | k in old(mails) && k !in found :: k in mails
        invariant inbox == Normal && (forall j | 0 <= j < |found| :: old(mails)[found[j]].sender != 0) ==> flow == old(flow)
        invariant inbox == Returned ==> mails.Keys <= old(mails).Keys
      {
        if inbox == Normal {
          if found[i] in mails { var again := ReturnMail(mails[found[i]].dest, found[i]); }
        } else if inbox == Returned {
          DeleteMail(found[i]);
        }
        i := i + 1;
      }
    }
  }

  // ----- what goes to whom

  /** One mail carries the item to the buyer, and one the money to the seller. */
  ghost predicate Delivered(x: Item, buyer: int, seller: int, price: int, mails: map<nat, Mail>, attachments: map<nat, seq<Item>>,
                            n: nat, mails': map<nat, Mail>, attachments': map<nat, seq<Item>>) {
    && attachments' == WithItem(attachments, n, x)
    && mails' == mails[n := Mail(0, buyer, 0, New, Normal)][n + 1 := Mail(0, seller, price, New, Normal)]
  }

  ghost predicate GivenBack(a: Auction, mails: map<nat, Mail>, attachments: map<nat, seq<Item>>,
                            n: nat, mails': map<nat, Mail>, attachments': map<nat, seq<Item>>) {
    attachments' == WithItem(attachments, n, a.item) && mails' == mails[n := Mail(0, a.seller, 0, New, Normal)]
  }

  function ZenyFor(p: int): Mail -> int { (m: Mail) => if m.dest == p then m.zeny else 0 }

  /** All money, and all items, in the mail of a player. */
  ghost function ZenyTo(p: int, mails: map<nat, Mail>): int { Total(mails, ZenyFor(p)) }

  ghost function AttachedTo(p: int, mails: map<nat, Mail>, attachments: map<nat, seq<Item>>): map<nat, seq<Item>> {
    map k | k in attachments && k in mails && mails[k].dest == p :: attachments[k]
  }

  ghost function ItemsTo(p: int, mails: map<nat, Mail>, attachments: map<nat, seq<Item>>): multiset<Item> {
    Union(AttachedTo(p, mails, attachments), Attached())
  }

  predicate Fresh(mails: map<nat, Mail>, attachments: map<nat, seq<Item>>, n: nat) {
    (forall k | k in mails :: k < n) && attachments.Keys <= mails.Keys
  }

  /** A new mail concerns nobody but its receiver. */
  lemma NewMail(mails: map<nat, Mail>, attachments: map<nat, seq<Item>>, n: nat, m: Mail, x: Item, p: int)
    requires Fresh(mails, attachments, n)
    ensures
      var mails' := mails[n := m];
      && Fresh(mails', attachments, n + 1) && Fresh(mails', WithItem(attachments, n, x), n + 1)
      && ZenyTo(p, mails') == ZenyTo(p, mails) + (if m.dest == p then m.zeny else 0)
      && ItemsTo(p, mails', attachments) == ItemsTo(p, mails, attachments)
      && ItemsTo(p, mails', WithItem(attachments, n, x))
         == ItemsTo(p, mails, attachments) + (if m.dest == p && x.nameid != 0 then multiset{x} else multiset{})
  {
    hide Total, Union;
    TotalPut(mails, n, m, ZenyFor(p));
    var older := AttachedTo(p, mails, attachments);
    assert AttachedTo(p, mails[n := m], attachments) == older;
    if x.nameid != 0 {
      if m.dest == p {
        UnionPut(older, n, [x], Attached());
        assert AttachedTo(p, mails[n := m], attachments[n := [x]]) == older[n := [x]];
      } else {
        assert AttachedTo(p, mails[n := m], attachments[n := [x]]) == older;
      }
    }
  }

  /** In the mail of each player there is so much more money, for `to` alone, and this item more, for `owner` alone. */
  ghost predicate Gains(mails: map<nat, Mail>, attachments: map<nat, seq<Item>>, mails': map<nat, Mail>, attachments': map<nat, seq<Item>>,
                        to: int, zeny: int, owner: int, x: Item) {
    forall p ::
      && ZenyTo(p, mails') == ZenyTo(p, mails) + (if p == to then zeny else 0)
      && ItemsTo(p, mails', attachments')
         == ItemsTo(p, mails, attachments) + (if p == owner && x.nameid != 0 then multiset{x} else multiset{})
  }

  lemma DeliveredGains(x: Item, buyer: int, seller: int, price: int, mails: map<nat, Mail>, attachments: map<nat, seq<Item>>,
                       n: nat, mails': map<nat, Mail>, attachments': map<nat, seq<Item>>)
    requires Fresh(mails, attachments, n) && Delivered(x, buyer, seller, price, mails, attachments, n, mails', attachments')
    ensures Gains(mails, attachments, mails', attachments', seller, price, buyer, x)
  {
    hide ZenyTo, ItemsTo, Fresh, Delivered;
    forall p
      ensures ZenyTo(p, mails') == ZenyTo(p, mails) + (if p == seller then price else 0)
      ensures ItemsTo(p, mails', attachments')
              == ItemsTo(p, mails, attachments) + (if p == buyer && x.nameid != 0 then multiset{x} else multiset{})
    {
      DeliveredPays(x, buyer, seller, price, mails, attachments, n, mails', attachments', p);
    }
  }

  lemma GivenBackGains(a: Auction, mails: map<nat, Mail>, attachments: map<nat, seq<Item>>,
                       n: nat, mails': map<nat, Mail>, attachments': map<nat, seq<Item>>)
    requires Fresh(mails, attachments, n) && GivenBack(a, mails, attachments, n, mails', attachments')
    ensures Gains(mails, attachments, mails', attachments', a.seller, 0, a.seller, a.item)
  {
    hide ZenyTo, ItemsTo, Fresh, GivenBack;
    forall p
      ensures ZenyTo(p, mails') == ZenyTo(p, mails)
      ensures ItemsTo(p, mails', attachments')
              == ItemsTo(p, mails, attachments) + (if p == a.seller && a.item.nameid != 0 then multiset{a.item} else multiset{})
    {
      GivenBackPays(a, mails, attachments, n, mails', attachments', p);
    }
  }

  lemma ClosedGains(a: Auction, mails: map<nat, Mail>, attachments: map<nat, seq<Item>>, n: nat)
    requires Fresh(mails, attachments, n)
    ensures Gains(mails, attachments, mails[n := Mail(0, a.seller, a.price, New, Normal)][n + 1 := Mail(0, a.buyer, 0, New, Normal)],
                  WithItem(attachments, n + 1, a.item), a.seller, a.price, a.buyer, a.item)
  {
    hide ZenyTo, ItemsTo, Fresh, WithItem;
    var mails1 := mails[n := Mail(0, a.seller, a.price, New, Normal)];
    var mails2 := mails1[n + 1 := Mail(0, a.buyer, 0, New, Normal)];
    var attachments2 := WithItem(attachments, n + 1, a.item);
    forall p
      ensures ZenyTo(p, mails2) == ZenyTo(p, mails) + (if p == a.seller then a.price else 0)
      ensures ItemsTo(p, mails2, attachments2)
              == ItemsTo(p, mails, attachments) + (if p == a.buyer && a.item.nameid != 0 then multiset{a.item} else multiset{})
    {
      NewMail(mails, attachments, n, Mail(0, a.seller, a.price, New, Normal), a.item, p);
      NewMail(mails1, attachments, n + 1, Mail(0, a.buyer, 0, New, Normal), a.item, p);
    }
  }

  /** What an accepted bid pays out by mail: the former bidder is refunded, and a bid that buys at once pays
      the seller and delivers the item to the new bidder. */
  ghost predicate BidPays(a: Auction, c: int, bid: int, mails: map<nat, Mail>, attachments: map<nat, seq<Item>>,
                          mails': map<nat, Mail>, attachments': map<nat, seq<Item>>) {
    forall p ::
      && ZenyTo(p, mails')
         == ZenyTo(p, mails) + (if a.buyer > 0 && p == a.buyer then a.price else 0) + (if bid >= a.buynow && p == a.seller then a.buynow else 0)
      && ItemsTo(p, mails', attachments')
         == ItemsTo(p, mails, attachments) + (if bid >= a.buynow && p == c && a.item.nameid != 0 then multiset{a.item} else multiset{})
  }

  lemma BidGains(a: Auction, c: int, bid: int, mails: map<nat, Mail>, attachments: map<nat, seq<Item>>, n: nat,
                 mails': map<nat, Mail>, attachments': map<nat, seq<Item>>)
    requires Fresh(mails, attachments, n)
    requires
      var mails1, n1 := Refunded(a, mails, n), n + if a.buyer > 0 then 1 else 0;
      if bid < a.buynow then mails' == mails1 && attachments' == attachments
      else Delivered(a.item, c, a.seller, a.buynow, mails1, attachments, n1, mails', attachments')
    ensures BidPays(a, c, bid, mails, attachments, mails', attachments')
  {
    hide ZenyTo, ItemsTo, Fresh, Delivered, Refunded;
    var mails1, n1 := Refunded(a, mails, n), n + if a.buyer > 0 then 1 else 0;
    forall p
      ensures ZenyTo(p, mails')
              == ZenyTo(p, mails) + (if a.buyer > 0 && p == a.buyer then a.price else 0) + (if bid >= a.buynow && p == a.seller then a.buynow else 0)
      ensures ItemsTo(p, mails', attachments')
              == ItemsTo(p, mails, attachments) + (if bid >= a.buynow && p == c && a.item.nameid != 0 then multiset{a.item} else multiset{})
    {
      RefundedPays(a, mails, attachments, n, p);
      if bid >= a.buynow {
        DeliveredPays(a.item, c, a.seller, a.buynow, mails1, attachments, n1, mails', attachments', p);
      }
    }
  }

  /** A sale: the item goes to the buyer, the price to the seller, and nothing to anybody else. */
  lemma DeliveredPays(x: Item, buyer: int, seller: int, price: int, mails: map<nat, Mail>, attachments: map<nat, seq<Item>>,
                      n: nat, mails': map<nat, Mail>, attachments': map<nat, seq<Item>>, p: int)
    requires Fresh(mails, attachments, n) && Delivered(x, buyer, seller, price, mails, attachments, n, mails', attachments')
    ensures ZenyTo(p, mails') == ZenyTo(p, mails) + (if p == seller then price else 0)
    ensures ItemsTo(p, mails', attachments')
            == ItemsTo(p, mails, attachments) + (if p == buyer && x.nameid != 0 then multiset{x} else multiset{})
  {
    hide ZenyTo, ItemsTo, Fresh, WithItem;
    var m := Mail(0, buyer, 0, New, Normal);
    NewMail(mails, attachments, n, m, x, p);
    NewMail(mails[n := m], attachments', n + 1, Mail(0, seller, price, New, Normal), x, p);
  }

  lemma GivenBackPays(a: Auction, mails: map<nat, Mail>, attachments: map<nat, seq<Item>>,
                      n: nat, mails': map<nat, Mail>, attachments': map<nat, seq<Item>>, p: int)
    requires Fresh(mails, attachments, n) && GivenBack(a, mails, attachments, n, mails', attachments')
    ensures ZenyTo(p, mails') == ZenyTo(p, mails)
    ensures ItemsTo(p, mails', attachments')
            == ItemsTo(p, mails, attachments) + (if p == a.seller && a.item.nameid != 0 then multiset{a.item} else multiset{})
  {
    hide ZenyTo, ItemsTo, Fresh, WithItem;
    NewMail(mails, attachments, n, Mail(0, a.seller, 0, New, Normal), a.item, p);
  }

  /** A refund: the former bidder gets the price, and nobody else anything. */
  lemma RefundedPays(a: Auction, mails: map<nat, Mail>, attachments: map<nat, seq<Item>>, n: nat, p: int)
    requires Fresh(mails, attachments, n)
    ensures
      var mails' := Refunded(a, mails, n);
      && Fresh(mails', attachments, n + if a.buyer > 0 then 1 else 0)
      && ZenyTo(p, mails') == ZenyTo(p, mails) + (if a.buyer > 0 && p == a.buyer then a.price else 0)
      && ItemsTo(p, mails', attachments) == ItemsTo(p, mails, attachments)
  {
    hide ZenyTo, ItemsTo, Fresh, WithItem;
    if a.buyer > 0 { NewMail(mails, attachments, n, Mail(0, a.buyer, a.price, New, Normal), a.item, p); }
  }

  function Refunded(a: Auction, mails: map<nat, Mail>, n: nat): map<nat, Mail> {
    if a.buyer > 0 then mails[n := Mail(0, a.buyer, a.price, New, Normal)] else mails
  }

  function Listed(x: Item): Item { x.(amount := 1, identify := 1) }

  lemma NoRows<V>(f: V -> int)
    ensures Total(map[], f) == 0
  {}

  function NonEmpty(items: seq<Item>): seq<Item> {
    if items == [] then []
    else
      var n := |items| - 1;
      NonEmpty(items[..n]) + (if items[n].nameid != 0 then [items[n]] else [])
  }

  lemma {:induction false} FilledIsStored(items: seq<Item>)
    ensures |NonEmpty(items)| <= |items| && forall i | 0 <= i < |NonEmpty(items)| :: NonEmpty(items)[i].nameid != 0
  {
    if items != [] { FilledIsStored(items[..|items| - 1]); }
  }

  lemma {:induction false} StoredIsFilled(items: seq<Item>)
    requires forall i | 0 <= i < |items| :: items[i].nameid != 0
    ensures NonEmpty(items) == items
  {
    if items != [] { StoredIsFilled(items[..|items| - 1]); }
  }

  /** The slots that hold an item. */
  method Filled(items: seq<Item>) returns (found: seq<Item>)
    ensures found == NonEmpty(items)
  {
    found := [];
    var i := 0;
    while i < |items|
      invariant i <= |items| && found == NonEmpty(items[..i])
    {
      if items[i].nameid != 0 { found := found + [items[i]]; }
      assert items[..i + 1][..i] == items[..i];
      i := i + 1;
    }
    assert items[..i] == items;
  }

  lemma OneItem(items: seq<Item>)
    requires |items| <= 1
    ensures NonEmpty(items) == if items == [] || items[0].nameid == 0 then [] else items
  {
    if items != [] {
      assert items[..0] == [];
      assert NonEmpty(items) == NonEmpty([]) + (if items[0].nameid != 0 then [items[0]] else []);
    }
  }
}
