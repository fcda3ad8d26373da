/** The chat order flow: one message at a time moves a phone's session through the states of an order. */
module Chat {
  import opened Ascii
  import opened Wrappers

  datatype Vendor = Vendor(id: nat, name: string)

  datatype Item = Item(name: string, qty: int, price: int)

  /** The parts of the system the flow asks: vendor search, the two parsers, and the check of items against a vendor. */
  datatype Env = Env(findVendor: string -> Option<Vendor>, parseItems: string -> seq<string>,
                     validate: (nat, seq<string>) -> Option<seq<Item>>, parseAddress: string -> string)

  datatype State = Menu | Track | AskVendor | AskItems | AskAddress | Confirm | Unknown(name: string)

  /** A session's dictionary: the state and the keys that may be present. */
  datatype Session = Session(state: State, vendorId: Option<nat>, vendorName: Option<string>,
                             items: Option<seq<Item>>, address: Option<string>, total: Option<int>)

  const NEW_SESSION := Session(Menu, None, None, None, None, None)

  datatype Order = Order(phone: string, vendorId: nat, items: seq<Item>, address: string)

  /** A successful payment for the order with that number. */
  datatype Charge = Charge(order: nat, amount: int)

  /** Sessions as saved, and what has been done: orders built, charges made, deliveries created for orders. */
  datatype World = World(sessions: map<string, Session>, orders: seq<Order>, charges: seq<Charge>, deliveries: seq<nat>)

  /** Which helper call fails while a confirmation is handled, if any. */
  datatype Failure = NoFailure | AtOrder | AtPay | AtNotify | AtDelivery | AtRedirect | AtSend

  /** A message, with how the payment goes and which helper fails if it is a confirmation. */
  datatype Msg = Msg(phone: string, text: string, payOk: bool, failure: Failure)

  function Load(w: World, phone: string): Session {
    if phone in w.sessions then w.sessions[phone] else NEW_SESSION
  }

  function Save(w: World, phone: string, s: Session): World {
    w.(sessions := w.sessions[phone := s])
  }

  function Sum(items: seq<Item>): int {
    if items == [] then 0 else Sum(items[..|items| - 1]) + items[|items| - 1].qty * items[|items| - 1].price
  }

  predicate Agrees(text: string) {
    Lower(text) == "yes" || Lower(text) == "y"
  }

  /** A confirmation: the order is built, paid for, announced and handed over; then the session starts over. A failing
      call ends the request there, and so does a payment that is not accepted. */
  function StepConfirm(w: World, m: Msg, s: Session): World
    requires s.vendorId.Some? && s.items.Some? && s.address.Some? && s.total.Some?
  {
    if m.failure == AtOrder then w
    else
      var n := |w.orders|;
      var ordered := w.(orders := w.orders + [Order(m.phone, s.vendorId.value, s.items.value, s.address.value)]);
      if m.failure == AtPay || !m.payOk then ordered
      else
        var paid := ordered.(charges := w.charges + [Charge(n, s.total.value)]);
        if m.failure == AtNotify || m.failure == AtDelivery then paid
        else
          var delivered := paid.(deliveries := w.deliveries + [n]);
          if m.failure == AtRedirect || m.failure == AtSend then delivered
          else Save(delivered, m.phone, s.(state := Menu))
  }

  predicate Ready(s: Session) {
    && (s.state == AskItems ==> s.vendorId.Some?)
    && (s.state == AskAddress ==> s.items.Some?)
    && (s.state == Confirm ==> s.vendorId.Some? && s.items.Some? && s.address.Some? && s.total.Some?)
  }

  function Step(env: Env, w: World, m: Msg): World
    requires Ready(Load(w, m.phone))
  {
    var s := Load(w, m.phone);
    match s.state
    case Menu =>
      var cmd := Lower(m.text);
      if cmd == "1" || cmd == "order" || cmd == "order food" then Save(w, m.phone, s.(state := AskVendor))
      else if cmd == "2" || cmd == "wallet" || cmd == "load" then w
      else if cmd == "3" || cmd == "track" then Save(w, m.phone, s.(state := Track))
      else w
    case Track => Save(w, m.phone, s.(state := Menu))
    case AskVendor =>
      var v := env.findVendor(m.text);
      if v.None? then w
      else Save(w, m.phone, s.(state := AskItems, vendorId := Some(v.value.id), vendorName := Some(v.value.name)))
    case AskItems =>
      var items := env.validate(s.vendorId.value, env.parseItems(m.text));
      if items.None? then w else Save(w, m.phone, s.(state := AskAddress, items := items))
    case AskAddress =>
      var address := env.parseAddress(m.text);
      if |address| < 4 then w
      else Save(w, m.phone, s.(state := Confirm, address := Some(address), total := Some(Sum(s.items.value))))
    case Confirm =>
      if !Agrees(m.text) then Save(w, m.phone, s.(state := Menu)) else StepConfirm(w, m, s)
    case Unknown(_) => Save(w, m.phone, s.(state := Menu))
  }

  // ----- What every message keeps

  /** The items were accepted for the vendor. */
  ghost predicate Validated(env: Env, vendorId: nat, items: seq<Item>) {
    exists raw :: env.validate(vendorId, raw) == Some(items)
  }

  /** A session has the fields its state needs: a vendor, items accepted for that vendor, an address of some length,
      and the total of the items. */
  ghost predicate Consistent(env: Env, s: Session) {
    && (s.state in {AskItems, AskAddress, Confirm} ==> s.vendorId.Some? && s.vendorName.Some?)
    && (s.state in {AskAddress, Confirm} ==> s.items.Some? && Validated(env, s.vendorId.value, s.items.value))
    && (s.state == Confirm ==>
          s.address.Some? && |s.address.value| >= 4 && s.total == Some(Sum(s.items.value)))
  }

  /** Charges are for orders and of their items' total; orders have accepted items; deliveries are for paid orders. */
  ghost predicate Honest(env: Env, w: World) {
    && (forall i :: 0 <= i < |w.orders| ==> Validated(env, w.orders[i].vendorId, w.orders[i].items))
    && (forall i :: 0 <= i < |w.charges| ==>
          w.charges[i].order < |w.orders| && w.charges[i].amount == Sum(w.orders[w.charges[i].order].items))
    && (forall i, j :: 0 <= i < j < |w.charges| ==> w.charges[i].order < w.charges[j].order)
    && Paid(w)
  }

  ghost predicate Invariant(env: Env, w: World) {
    (forall phone <- w.sessions :: Consistent(env, w.sessions[phone])) && Honest(env, w)
  }

  /** In a consistent session every field is there when it is read. */
  lemma LoadReady(env: Env, w: World, phone: string)
    requires Invariant(env, w)
    ensures Consistent(env, Load(w, phone)) && Ready(Load(w, phone))
  {
  }

  lemma ConfirmKeeps(env: Env, w: World, m: Msg, s: Session)
    requires Invariant(env, w) && s.state == Confirm && Consistent(env, s)
    ensures Invariant(env, StepConfirm(w, m, s))
  {
    ConfirmHonest(env, w, m, s);
    var t := StepConfirm(w, m, s);
    assert t.sessions == w.sessions || t.sessions == w.sessions[m.phone := s.(state := Menu)];
  }

  lemma ConfirmHonest(env: Env, w: World, m: Msg, s: Session)
    requires Honest(env, w) && s.state == Confirm && Consistent(env, s)
    ensures Honest(env, StepConfirm(w, m, s))
  {
    DeliveriesPaid(w, m, s);
    var t := StepConfirm(w, m, s);
    forall i | 0 <= i < |t.charges|
      ensures t.charges[i].order < |t.orders| && t.charges[i].amount == Sum(t.orders[t.charges[i].order].items)
    {
      assert i < |w.charges| ==> t.charges[i] == w.charges[i] && t.charges[i].order < |w.orders|;
    }
  }

  /** Every delivery is for a paid order. */
  ghost predicate Paid(w: World) {
    forall d <- w.deliveries :: exists i :: 0 <= i < |w.charges| && w.charges[i].order == d
  }

  lemma DeliveriesPaid(w: World, m: Msg, s: Session)
    requires Paid(w) && s.vendorId.Some? && s.items.Some? && s.address.Some? && s.total.Some?
    ensures Paid(StepConfirm(w, m, s))
  {
    var t := StepConfirm(w, m, s);
    forall d <- t.deliveries
      ensures exists i :: 0 <= i < |t.charges| && t.charges[i].order == d
    {
      if d in w.deliveries {
        var i :| 0 <= i < |w.charges| && w.charges[i].order == d;
        assert t.charges[i].order == d;
      } else {
        assert t.charges[|w.charges|].order == d;
      }
    }
  }

  lemma StepKeeps(env: Env, w: World, m: Msg)
    requires Invariant(env, w)
    ensures Ready(Load(w, m.phone)) && Invariant(env, Step(env, w, m))
  {
    LoadReady(env, w, m.phone);
    var s := Load(w, m.phone);
    if s.state == Confirm && Agrees(m.text) {
      ConfirmKeeps(env, w, m, s);
    }
  }

  ghost function Run(env: Env, w: World, ms: seq<Msg>): World
    requires Invariant(env, w)
    decreases |ms|
  {
    if ms == [] then w
    else
      StepKeeps(env, w, ms[0]);
      Run(env, Step(env, w, ms[0]), ms[1..])
  }

  /** Over any messages from any phones, sessions stay consistent and every charge is the total of accepted items. */
  lemma {:induction false} RunKeeps(env: Env, w: World, ms: seq<Msg>)
    requires Invariant(env, w)
    ensures Invariant(env, Run(env, w, ms))
    decreases |ms|
  {
    if ms != [] {
      StepKeeps(env, w, ms[0]);
      RunKeeps(env, Step(env, w, ms[0]), ms[1..]);
    }
  }

  // ----- Orders, charges and deliveries

  /** The message is a confirmation that is acted on. */
  predicate Confirms(w: World, m: Msg) {
    Load(w, m.phone).state == Confirm && Agrees(m.text)
  }

  /** An order is built and not charged. */
  predicate Unpaid(w: World, m: Msg) {
    Confirms(w, m) && m.failure != AtOrder && (m.failure == AtPay || !m.payOk)
  }

  /** A payment is taken and the delivery is not created. */
  predicate ChargedInVain(w: World, m: Msg) {
    Confirms(w, m) && m.payOk && (m.failure == AtNotify || m.failure == AtDelivery)
  }

  /** How many messages of a run are of these two kinds. */
  ghost function CountUnpaid(env: Env, w: World, ms: seq<Msg>): nat
    requires Invariant(env, w)
    decreases |ms|
  {
    if ms == [] then 0
    else
      StepKeeps(env, w, ms[0]);
      (if Unpaid(w, ms[0]) then 1 else 0) + CountUnpaid(env, Step(env, w, ms[0]), ms[1..])
  }

  ghost function CountInVain(env: Env, w: World, ms: seq<Msg>): nat
    requires Invariant(env, w)
    decreases |ms|
  {
    if ms == [] then 0
    else
      StepKeeps(env, w, ms[0]);
      (if ChargedInVain(w, ms[0]) then 1 else 0) + CountInVain(env, Step(env, w, ms[0]), ms[1..])
  }

  /** Exact counts over a run: each order is charged unless its payment failed, each charge leads to a delivery unless
      a helper failed in between. */
  lemma {:induction false} RunCounts(env: Env, w: World, ms: seq<Msg>)
    requires Invariant(env, w)
    ensures var t := Run(env, w, ms);
            && |t.charges| - |t.deliveries| == |w.charges| - |w.deliveries| + CountInVain(env, w, ms)
            && |t.orders| - |t.charges| == |w.orders| - |w.charges| + CountUnpaid(env, w, ms)
    decreases |ms|
  {
    if ms != [] {
      StepKeeps(env, w, ms[0]);
      StepCounts(env, w, ms[0]);
      RunCounts(env, Step(env, w, ms[0]), ms[1..]);
    }
  }

  lemma StepCounts(env: Env, w: World, m: Msg)
    requires Ready(Load(w, m.phone))
    ensures var t := Step(env, w, m);
            && |t.charges| - |t.deliveries| == |w.charges| - |w.deliveries| + (if ChargedInVain(w, m) then 1 else 0)
            && |t.orders| - |t.charges| == |w.orders| - |w.charges| + (if Unpaid(w, m) then 1 else 0)
  {
  }

  const EMPTY := World(map[], [], [], [])

  /** Starting from nothing, as many deliveries are created as payments succeed exactly when no helper fails between
      a payment and its delivery; and as many orders are built as are paid for exactly when no payment fails. */
  lemma DeliveriesMatchPaymentsIff(env: Env, ms: seq<Msg>)
    ensures Invariant(env, EMPTY)
    ensures var t := Run(env, EMPTY, ms);
            && (|t.deliveries| == |t.charges| <==> CountInVain(env, EMPTY, ms) == 0)
            && (|t.orders| == |t.charges| <==> CountUnpaid(env, EMPTY, ms) == 0)
  {
    RunCounts(env, EMPTY, ms);
  }

  // ----- Charges and the wait for a confirmation

  /** The message is a confirmation whose payment goes through. */
  predicate Charges(w: World, m: Msg) {
    Confirms(w, m) && m.payOk && m.failure !in {AtOrder, AtPay}
  }

  /** The payment goes through and a helper fails before the session is saved again. */
  predicate ChargedAndWaiting(w: World, m: Msg) {
    Confirms(w, m) && m.payOk && m.failure in {AtNotify, AtDelivery, AtRedirect, AtSend}
  }

  predicate Waits(w: World, phone: string) {
    Load(w, phone).state == Confirm
  }

  /** How many charges a message adds. */
  function Added(w: World, t: World): int {
    |t.charges| - |w.charges|
  }

  /** A confirmation is charged exactly when its payment goes through, and leaves the session waiting for another
      confirmation as well exactly when one of the later helpers fails. */
  lemma ChargedAndWaitingIff(env: Env, w: World, m: Msg)
    requires Ready(Load(w, m.phone))
    ensures var t := Step(env, w, m);
            && Added(w, t) == (if Charges(w, m) then 1 else 0)
            && (Confirms(w, m) ==> (Added(w, t) == 1 && Waits(t, m.phone) <==> ChargedAndWaiting(w, m)))
  {
  }

  /** A message leaves other phones' sessions alone. */
  lemma OthersUntouched(env: Env, w: World, m: Msg, phone: string)
    requires Ready(Load(w, m.phone)) && phone != m.phone
    ensures Load(Step(env, w, m), phone) == Load(w, phone)
  {
  }

  /** The charges of a phone since its session last came to wait for a confirmation. */
  type Tally = map<string, nat>

  function Count(tally: Tally, phone: string): nat {
    if phone in tally then tally[phone] else 0
  }

  /** The tally after a message: one that leaves the wait starts over. */
  function Tallied(tally: Tally, w: World, t: World, phone: string): Tally
    requires Added(w, t) >= 0
  {
    tally[phone := if Waits(t, phone) then Count(tally, phone) + Added(w, t) else 0]
  }

  /** While a session waits for a confirmation, and up to the message that ends the wait, it is charged at most once. */
  ghost predicate OncePerWait(env: Env, w: World, ms: seq<Msg>, tally: Tally)
    requires Invariant(env, w)
    decreases |ms|
  {
    ms == []
    || (StepKeeps(env, w, ms[0]);
        ChargedAndWaitingIff(env, w, ms[0]);
        var t := Step(env, w, ms[0]);
        && Count(tally, ms[0].phone) + Added(w, t) <= 1
        && OncePerWait(env, t, ms[1..], Tallied(tally, w, t, ms[0].phone)))
  }

  /** The waiting session is charged before it leaves the wait. */
  ghost predicate ChargedNext(env: Env, w: World, ms: seq<Msg>, phone: string)
    requires Invariant(env, w)
    decreases |ms|
  {
    && ms != [] && Waits(w, phone)
    && ((ms[0].phone == phone && Charges(w, ms[0]))
        || (StepKeeps(env, w, ms[0]);
            ChargedNext(env, Step(env, w, ms[0]), ms[1..], phone)))
  }

  /** No charge that leaves a session waiting is followed by another one before the session leaves the wait. */
  ghost predicate NeverChargedAgain(env: Env, w: World, ms: seq<Msg>)
    requires Invariant(env, w)
    decreases |ms|
  {
    ms == []
    || (StepKeeps(env, w, ms[0]);
        var t := Step(env, w, ms[0]);
        && (ChargedAndWaiting(w, ms[0]) ==> !ChargedNext(env, t, ms[1..], ms[0].phone))
        && NeverChargedAgain(env, t, ms[1..]))
  }

  /** Phones with a charge in the tally are still waiting. */
  ghost predicate Tracks(w: World, tally: Tally) {
    forall phone <- tally :: tally[phone] <= 1 && (tally[phone] == 1 ==> Waits(w, phone))
  }

  /** No phone with a charge in the tally is charged before it leaves the wait. */
  ghost predicate NotAgain(env: Env, w: World, ms: seq<Msg>, tally: Tally)
    requires Invariant(env, w)
  {
    forall phone: string :: Count(tally, phone) == 1 ==> !ChargedNext(env, w, ms, phone)
  }

  /** One message, for the phones of the tally. */
  lemma NotAgainStep(env: Env, w: World, ms: seq<Msg>, tally: Tally)
    requires Invariant(env, w) && ms != [] && Tracks(w, tally)
    requires Ready(Load(w, ms[0].phone)) && Invariant(env, Step(env, w, ms[0]))
    requires Added(w, Step(env, w, ms[0])) == if Charges(w, ms[0]) then 1 else 0
    requires Count(tally, ms[0].phone) + Added(w, Step(env, w, ms[0])) <= 1
    ensures var t := Step(env, w, ms[0]);
            var tally' := Tallied(tally, w, t, ms[0].phone);
            && Tracks(t, tally')
            && (NotAgain(env, t, ms[1..], tally') <==>
                && NotAgain(env, w, ms, tally)
                && (ChargedAndWaiting(w, ms[0]) ==> !ChargedNext(env, t, ms[1..], ms[0].phone)))
  {
    var m, t := ms[0], Step(env, w, ms[0]);
    var tally' := Tallied(tally, w, t, m.phone);
    ChargedAndWaitingIff(env, w, m);
    forall phone | phone != m.phone
      ensures Load(t, phone) == Load(w, phone) && (Waits(w, phone) ==>
                (ChargedNext(env, w, ms, phone) <==> ChargedNext(env, t, ms[1..], phone)))
    {
      OthersUntouched(env, w, m, phone);
    }
    var q, rest := m.phone, ms[1..];
    assert !Waits(t, q) ==> !ChargedNext(env, t, rest, q);
    assert Count(tally, q) == 1 ==> !Charges(w, m) && Waits(w, q);
    assert Count(tally, q) == 1 ==> (ChargedNext(env, w, ms, q) <==> ChargedNext(env, t, rest, q));
    assert Count(tally', q) == 1 <==> Waits(t, q) && (Count(tally, q) == 1 || Charges(w, m));
    assert forall phone :: phone != q ==> Count(tally', phone) == Count(tally, phone);
  }

  lemma {:induction false} OncePerWaitFrom(env: Env, w: World, ms: seq<Msg>, tally: Tally)
    requires Invariant(env, w) && Tracks(w, tally)
    ensures OncePerWait(env, w, ms, tally) <==> NeverChargedAgain(env, w, ms) && NotAgain(env, w, ms, tally)
    decreases |ms|
  {
    if ms != [] {
      var m, t := ms[0], Step(env, w, ms[0]);
      StepKeeps(env, w, m);
      ChargedAndWaitingIff(env, w, m);
      if Count(tally, m.phone) + Added(w, t) <= 1 {
        NotAgainStep(env, w, ms, tally);
        OncePerWaitFrom(env, t, ms[1..], Tallied(tally, w, t, m.phone));
      } else {
        assert ChargedNext(env, w, ms, m.phone);
      }
    }
  }

  /** Over any run, each wait of a session for a confirmation is charged at most once if and only if no payment
      followed by a failing helper is followed by another accepted confirmation before the session leaves the wait. */
  lemma OncePerWaitIff(env: Env, w: World, ms: seq<Msg>)
    requires Invariant(env, w)
    ensures OncePerWait(env, w, ms, map[]) <==> NeverChargedAgain(env, w, ms)
  {
    OncePerWaitFrom(env, w, ms, map[]);
  }

  /** When a helper fails after the payment, the session still awaits a confirmation: the next "yes" charges again. */
  lemma RetryChargesAgain(env: Env, w: World, m: Msg, m': Msg)
    requires Invariant(env, w) && Confirms(w, m) && m.payOk && m.failure !in {NoFailure, AtOrder, AtPay}
    requires m'.phone == m.phone && Agrees(m'.text) && m'.payOk && m'.failure !in {AtOrder, AtPay}
    ensures Ready(Load(w, m.phone)) && Ready(Load(Step(env, w, m), m.phone))
    ensures var t := Step(env, Step(env, w, m), m');
            |t.charges| == |w.charges| + 2 && t.charges[|w.charges|].amount == t.charges[|w.charges| + 1].amount
  {
    StepKeeps(env, w, m);
    var t1 := Step(env, w, m);
    assert t1.sessions == w.sessions;
  }

  // ----- From the menu to a delivered order

  /** What items cost together. */
  function Cost(items: seq<Item>): int {
    if items == [] then 0 else items[0].qty * items[0].price + Cost(items[1..])
  }

  lemma {:induction false} SumIsCost(items: seq<Item>)
    ensures Sum(items) == Cost(items)
  {
    if items != [] {
      var init, last := items[..|items| - 1], items[|items| - 1];
      assert items == init + [last];
      SumIsCost(init);
      CostSnoc(init, last);
    }
  }

  lemma {:induction false} CostSnoc(items: seq<Item>, x: Item)
    ensures Cost(items + [x]) == Cost(items) + x.qty * x.price
  {
    if items == [] {
      assert [] + [x] == [x];
    } else {
      assert (items + [x])[0] == items[0] && (items + [x])[1..] == items[1..] + [x];
      CostSnoc(items[1..], x);
    }
  }

  /** The answers of a customer who orders these items from this vendor, to this address, and agrees. */
  predicate Orders(env: Env, ms: seq<Msg>, phone: string, vendor: Vendor, items: seq<Item>, address: string) {
    && |ms| == 5 && (forall i :: 0 <= i < 5 ==> ms[i].phone == phone)
    && Lower(ms[0].text) in {"1", "order", "order food"}
    && env.findVendor(ms[1].text) == Some(vendor)
    && env.validate(vendor.id, env.parseItems(ms[2].text)) == Some(items)
    && env.parseAddress(ms[3].text) == address && |address| >= 4
    && Lower(ms[4].text) in {"yes", "y"} && ms[4].payOk && ms[4].failure == NoFailure
  }

  /** The session after the first `k` of these answers. */
  function Answered(s: Session, k: nat, vendor: Vendor, items: seq<Item>, address: string): Session {
    match k
    case 0 => s
    case 1 => s.(state := AskVendor)
    case 2 => s.(state := AskItems, vendorId := Some(vendor.id), vendorName := Some(vendor.name))
    case 3 =>
      s.(state := AskAddress, vendorId := Some(vendor.id), vendorName := Some(vendor.name), items := Some(items))
    case _ =>
      Session(Confirm, Some(vendor.id), Some(vendor.name), Some(items), Some(address), Some(Cost(items)))
  }

  lemma StepAnswered(env: Env, w: World, ms: seq<Msg>, k: nat, s: Session, phone: string, vendor: Vendor,
                     items: seq<Item>, address: string)
    requires k < 4 && Orders(env, ms, phone, vendor, items, address)
    requires Load(w, phone) == Answered(s, k, vendor, items, address) && s.state == Menu
    ensures Ready(Load(w, phone))
    ensures Step(env, w, ms[k]) == w.(sessions := w.sessions[phone := Answered(s, k + 1, vendor, items, address)])
  {
    SumIsCost(items);
  }

  lemma RunStep(env: Env, w: World, ms: seq<Msg>, k: nat)
    requires Invariant(env, w) && k < |ms|
    ensures Ready(Load(w, ms[k].phone)) && Invariant(env, Step(env, w, ms[k]))
    ensures Run(env, w, ms[k..]) == Run(env, Step(env, w, ms[k]), ms[k + 1..])
  {
    hide Invariant, Step;
    StepKeeps(env, w, ms[k]);
    assert ms[k..][1..] == ms[k + 1..];
  }

  /** The first four answers only move the session on. */
  lemma {:induction false} RunAnswered(env: Env, w: World, ms: seq<Msg>, k: nat, s: Session, phone: string,
                                       vendor: Vendor, items: seq<Item>, address: string)
    requires Invariant(env, w) && k <= 4 && Orders(env, ms, phone, vendor, items, address)
    requires Load(w, phone) == Answered(s, k, vendor, items, address) && s.state == Menu
    ensures var t := w.(sessions := w.sessions[phone := Answered(s, 4, vendor, items, address)]);
            && Ready(Load(t, phone))
            && (k < 4 ==> Run(env, w, ms[k..]) == Step(env, t, ms[4]))
            && (k == 4 ==> Run(env, w, ms[k..]) == Step(env, w, ms[4]))
    decreases 4 - k
  {
    hide Invariant, Step, Run, Answered;
    RunStep(env, w, ms, k);
    var w1 := Step(env, w, ms[k]);
    if k == 4 {
      assert ms[5..] == [];
      RunNothing(env, w1);
      ReadyToConfirm(w, s, phone, vendor, items, address);
    } else {
      StepAnswered(env, w, ms, k, s, phone, vendor, items, address);
      RunAnswered(env, w1, ms, k + 1, s, phone, vendor, items, address);
      var last := Answered(s, 4, vendor, items, address);
      assert w1.sessions[phone := last] == w.sessions[phone := last];
      if k == 3 { assert w1.sessions == w.sessions[phone := last]; }
    }
  }

  lemma RunNothing(env: Env, w: World)
    requires Invariant(env, w)
    ensures Run(env, w, []) == w
  {
  }

  lemma ReadyToConfirm(w: World, s: Session, phone: string, vendor: Vendor, items: seq<Item>, address: string)
    ensures Ready(Load(w.(sessions := w.sessions[phone := Answered(s, 4, vendor, items, address)]), phone))
  {
  }

  /** From the menu, where every new phone starts, these five answers place exactly one order, with the vendor, the
      items and the address given, charge what the items cost once, create one delivery for it, and lead back to the
      menu. */
  lemma OrderPlaced(env: Env, w: World, ms: seq<Msg>, phone: string, vendor: Vendor, items: seq<Item>, address: string)
    requires Invariant(env, w) && (phone in w.sessions ==> w.sessions[phone].state == Menu)
    requires Orders(env, ms, phone, vendor, items, address)
    ensures var t, n := Run(env, w, ms), |w.orders|;
            && t.orders == w.orders + [Order(phone, vendor.id, items, address)]
            && t.charges == w.charges + [Charge(n, Cost(items))]
            && t.deliveries == w.deliveries + [n]
            && phone in t.sessions && t.sessions[phone].state == Menu
            && forall p :: p != phone ==> Load(t, p) == Load(w, p)
  {
    hide Invariant, Run, Step;
    var s := Load(w, phone);
    assert ms[0..] == ms;
    RunAnswered(env, w, ms, 0, s, phone, vendor, items, address);
    var t := w.(sessions := w.sessions[phone := Answered(s, 4, vendor, items, address)]);
    ConfirmOutcome(env, t, ms[4]);
  }

  // ----- Every other answer

  /** What a confirmation leaves behind, wherever it fails. */
  lemma ConfirmOutcome(env: Env, w: World, m: Msg)
    requires Ready(Load(w, m.phone)) && Load(w, m.phone).state == Confirm && Lower(m.text) in {"yes", "y"}
    ensures var s, t, n := Load(w, m.phone), Step(env, w, m), |w.orders|;
            var ordered := m.failure != AtOrder;
            var paid := ordered && m.failure != AtPay && m.payOk;
            var delivered := paid && m.failure != AtNotify && m.failure != AtDelivery;
            && t.orders == w.orders
                 + (if ordered then [Order(m.phone, s.vendorId.value, s.items.value, s.address.value)] else [])
            && t.charges == w.charges + (if paid then [Charge(n, s.total.value)] else [])
            && t.deliveries == w.deliveries + (if delivered then [n] else [])
            && t.sessions == if delivered && m.failure != AtRedirect && m.failure != AtSend
                             then w.sessions[m.phone := s.(state := Menu)] else w.sessions
  {
  }

  /** A message changes nothing exactly if it is not among the answers its session waits for: no order or tracking
      command in the menu, no known vendor, items the vendor does not sell, an address that is too short, or a
      confirmation whose order cannot be built. */
  lemma UnchangedIff(env: Env, w: World, m: Msg)
    requires Ready(Load(w, m.phone))
    ensures var s := Load(w, m.phone);
            Step(env, w, m) == w <==>
            match s.state
            case Menu => Lower(m.text) !in {"1", "order", "order food", "3", "track"}
            case AskVendor => env.findVendor(m.text) == None
            case AskItems => env.validate(s.vendorId.value, env.parseItems(m.text)) == None
            case AskAddress => |env.parseAddress(m.text)| < 4
            case Confirm => Lower(m.text) in {"yes", "y"} && m.failure == AtOrder
            case _ => false
  {
    var s, t := Load(w, m.phone), Step(env, w, m);
    if t == w {
      assert Load(t, m.phone).state == s.state;
    }
    if s.state == Confirm && Agrees(m.text) {
      ConfirmOutcome(env, w, m);
    }
  }

  /** The answers that only move the session: to the tracking question and back, and out of an unknown state or a
      declined order to the menu. */
  lemma OnlyMoves(env: Env, w: World, m: Msg)
    requires Ready(Load(w, m.phone))
    ensures var s, t := Load(w, m.phone), Step(env, w, m);
            && (s.state == Menu && Lower(m.text) in {"3", "track"} ==>
                  t == w.(sessions := w.sessions[m.phone := s.(state := Track)]))
            && (s.state == Track || s.state.Unknown? || (s.state == Confirm && Lower(m.text) !in {"yes", "y"}) ==>
                  t == w.(sessions := w.sessions[m.phone := s.(state := Menu)]))
  {
  }

  // ----- Conversations do not interfere

  /** The messages from one phone. */
  function Own(ms: seq<Msg>, phone: string): seq<Msg> {
    if ms == [] then [] else (if ms[0].phone == phone then [ms[0]] else []) + Own(ms[1..], phone)
  }

  function OrdersOf(orders: seq<Order>, phone: string): seq<Order> {
    if orders == [] then []
    else
      var last := orders[|orders| - 1];
      OrdersOf(orders[..|orders| - 1], phone) + if last.phone == phone then [last] else []
  }

  /** The charges for a phone's orders, each with its order. */
  function ChargesOf(orders: seq<Order>, charges: seq<Charge>, phone: string): seq<(Order, int)>
    requires forall i :: 0 <= i < |charges| ==> charges[i].order < |orders|
  {
    if charges == [] then []
    else
      var last := charges[|charges| - 1];
      ChargesOf(orders, charges[..|charges| - 1], phone)
      + if orders[last.order].phone == phone then [(orders[last.order], last.amount)] else []
  }

  function DeliveriesOf(orders: seq<Order>, deliveries: seq<nat>, phone: string): seq<Order>
    requires forall i :: 0 <= i < |deliveries| ==> deliveries[i] < |orders|
  {
    if deliveries == [] then []
    else
      var last := deliveries[|deliveries| - 1];
      DeliveriesOf(orders, deliveries[..|deliveries| - 1], phone)
      + if orders[last].phone == phone then [orders[last]] else []
  }

  /** Charges and deliveries are for orders that there are. */
  predicate Numbered(w: World) {
    && (forall i :: 0 <= i < |w.charges| ==> w.charges[i].order < |w.orders|)
    && (forall i :: 0 <= i < |w.deliveries| ==> w.deliveries[i] < |w.orders|)
  }

  /** What a customer sees: the session, and the orders, charges and deliveries for this phone. */
  datatype Seen = Seen(session: Session, orders: seq<Order>, charges: seq<(Order, int)>, deliveries: seq<Order>)

  function See(w: World, phone: string): Seen
    requires Numbered(w)
  {
    Seen(Load(w, phone), OrdersOf(w.orders, phone), ChargesOf(w.orders, w.charges, phone),
         DeliveriesOf(w.orders, w.deliveries, phone))
  }

  lemma HonestNumbered(env: Env, w: World)
    requires Honest(env, w)
    ensures Numbered(w)
  {
    forall i | 0 <= i < |w.deliveries|
      ensures w.deliveries[i] < |w.orders|
    {
      assert w.deliveries[i] in w.deliveries;
      var k :| 0 <= k < |w.charges| && w.charges[k].order == w.deliveries[i];
    }
  }

  lemma {:induction false} ChargesLater(orders: seq<Order>, o: Order, charges: seq<Charge>, phone: string)
    requires forall i :: 0 <= i < |charges| ==> charges[i].order < |orders|
    ensures ChargesOf(orders + [o], charges, phone) == ChargesOf(orders, charges, phone)
  {
    if charges != [] {
      ChargesLater(orders, o, charges[..|charges| - 1], phone);
    }
  }

  lemma {:induction false} DeliveriesLater(orders: seq<Order>, o: Order, deliveries: seq<nat>, phone: string)
    requires forall i :: 0 <= i < |deliveries| ==> deliveries[i] < |orders|
    ensures DeliveriesOf(orders + [o], deliveries, phone) == DeliveriesOf(orders, deliveries, phone)
  {
    if deliveries != [] {
      DeliveriesLater(orders, o, deliveries[..|deliveries| - 1], phone);
    }
  }

  /** An order for some phone, perhaps charged, perhaps delivered. */
  lemma SeeOrder(w: World, t: World, o: Order, amount: int, paid: bool, delivered: bool, phone: string)
    requires Numbered(w) && t.orders == w.orders + [o]
    requires t.charges == w.charges + if paid then [Charge(|w.orders|, amount)] else []
    requires t.deliveries == w.deliveries + if delivered then [|w.orders| as nat] else []
    ensures Numbered(t)
    ensures var a, b := See(w, phone), See(t, phone);
            && b.orders == a.orders + (if o.phone == phone then [o] else [])
            && b.charges == a.charges + (if paid && o.phone == phone then [(o, amount)] else [])
            && b.deliveries == a.deliveries + (if delivered && o.phone == phone then [o] else [])
  {
    hide ChargesOf, DeliveriesOf;
    assert t.orders[..|w.orders|] == w.orders;
    ChargesLater(w.orders, o, w.charges, phone);
    DeliveriesLater(w.orders, o, w.deliveries, phone);
    if paid {
      ChargeSnoc(t.orders, w.charges, Charge(|w.orders|, amount), phone);
    } else {
      assert t.charges == w.charges;
    }
    if delivered {
      DeliverySnoc(t.orders, w.deliveries, |w.orders|, phone);
    } else {
      assert t.deliveries == w.deliveries;
    }
  }

  lemma ChargeSnoc(orders: seq<Order>, charges: seq<Charge>, c: Charge, phone: string)
    requires c.order < |orders| && forall i :: 0 <= i < |charges| ==> charges[i].order < |orders|
    ensures ChargesOf(orders, charges + [c], phone) == ChargesOf(orders, charges, phone)
            + if orders[c.order].phone == phone then [(orders[c.order], c.amount)] else []
  {
    assert (charges + [c])[..|charges|] == charges;
  }

  lemma DeliverySnoc(orders: seq<Order>, deliveries: seq<nat>, d: nat, phone: string)
    requires d < |orders| && forall i :: 0 <= i < |deliveries| ==> deliveries[i] < |orders|
    ensures DeliveriesOf(orders, deliveries + [d], phone) == DeliveriesOf(orders, deliveries, phone)
            + if orders[d].phone == phone then [orders[d]] else []
  {
    assert (deliveries + [d])[..|deliveries|] == deliveries;
  }

  /** What a message does for a phone depends on its own conversation only; messages of others do nothing. */
  lemma StepSeen(env: Env, w: World, w': World, m: Msg, phone: string)
    requires Invariant(env, w) && Invariant(env, w')
    requires Numbered(w) && Numbered(w') && See(w, phone) == See(w', phone)
    ensures Ready(Load(w, m.phone)) && Ready(Load(w', m.phone))
    ensures Numbered(Step(env, w, m)) && Numbered(Step(env, w', m))
    ensures m.phone == phone ==> See(Step(env, w, m), phone) == See(Step(env, w', m), phone)
    ensures m.phone != phone ==> See(Step(env, w, m), phone) == See(w', phone)
  {
    hide Honest, ChargesOf, DeliveriesOf, OrdersOf;
    LoadReady(env, w, m.phone);
    LoadReady(env, w', m.phone);
    StepSees(env, w, m, phone);
    StepSees(env, w', m, phone);
  }

  /** The session a message leaves behind. */
  function Next(env: Env, s: Session, m: Msg): Session
    requires Ready(s)
  {
    Load(Step(env, World(map[m.phone := s], [], [], []), m), m.phone)
  }

  lemma StepSession(env: Env, w: World, m: Msg, phone: string)
    requires Ready(Load(w, m.phone))
    ensures Load(Step(env, w, m), phone) == if m.phone == phone then Next(env, Load(w, phone), m) else Load(w, phone)
  {
  }

  lemma StepSees(env: Env, w: World, m: Msg, phone: string)
    requires Ready(Load(w, m.phone)) && Numbered(w)
    ensures Numbered(Step(env, w, m))
    ensures var s, a, b := Load(w, m.phone), See(w, phone), See(Step(env, w, m), phone);
            var acts := m.phone == phone && s.state == Confirm && Agrees(m.text) && m.failure != AtOrder;
            var paid := acts && m.failure != AtPay && m.payOk;
            var delivered := paid && m.failure != AtNotify && m.failure != AtDelivery;
            && b.session == (if m.phone == phone then Next(env, s, m) else a.session)
            && (acts ==> var o := Order(m.phone, s.vendorId.value, s.items.value, s.address.value);
                  && b.orders == a.orders + [o]
                  && b.charges == a.charges + (if paid then [(o, s.total.value)] else [])
                  && b.deliveries == a.deliveries + (if delivered then [o] else []))
            && (!acts ==> b.orders == a.orders && b.charges == a.charges && b.deliveries == a.deliveries)
  {
    hide ChargesOf, DeliveriesOf, OrdersOf, Next, Lower;
    StepSession(env, w, m, phone);
    var s, t := Load(w, m.phone), Step(env, w, m);
    if s.state == Confirm && Agrees(m.text) {
      ConfirmOutcome(env, w, m);
      if m.failure != AtOrder {
        var o := Order(m.phone, s.vendorId.value, s.items.value, s.address.value);
        var paid := m.failure != AtPay && m.payOk;
        SeeOrder(w, t, o, s.total.value, paid, paid && m.failure != AtNotify && m.failure != AtDelivery, phone);
      }
    }
  }

  /** What a customer sees after any messages from any phones is what the own messages alone lead to. */
  lemma {:induction false} OwnMessagesOnly(env: Env, w: World, w': World, ms: seq<Msg>, phone: string)
    requires Invariant(env, w) && Invariant(env, w')
    requires Numbered(w) && Numbered(w') && See(w, phone) == See(w', phone)
    ensures Numbered(Run(env, w, ms)) && Numbered(Run(env, w', Own(ms, phone)))
    ensures See(Run(env, w, ms), phone) == See(Run(env, w', Own(ms, phone)), phone)
    decreases |ms|
  {
    hide Invariant, Step, See, Numbered;
    if ms != [] {
      var m := ms[0];
      StepKeeps(env, w, m);
      StepKeeps(env, w', m);
      StepSeen(env, w, w', m, phone);
      var own := Own(ms[1..], phone);
      if m.phone == phone {
        OwnMessagesOnly(env, Step(env, w, m), Step(env, w', m), ms[1..], phone);
        assert ([m] + own)[1..] == own;
      } else {
        OwnMessagesOnly(env, Step(env, w, m), w', ms[1..], phone);
        assert [] + own == own;
      }
    }
  }

  /** However the messages of other phones come in between, a customer who gives these answers from the menu sees one
      order more, charged with its cost and delivered once, and is back in the menu. */
  lemma OrderPlacedAmongOthers(env: Env, w: World, ms: seq<Msg>, phone: string, vendor: Vendor, items: seq<Item>,
                               address: string)
    requires Invariant(env, w) && (phone in w.sessions ==> w.sessions[phone].state == Menu)
    requires Orders(env, Own(ms, phone), phone, vendor, items, address)
    ensures Numbered(w) && Numbered(Run(env, w, ms))
    ensures var a, b, o := See(w, phone), See(Run(env, w, ms), phone), Order(phone, vendor.id, items, address);
            && b.session.state == Menu && b.orders == a.orders + [o]
            && b.charges == a.charges + [(o, Cost(items))] && b.deliveries == a.deliveries + [o]
  {
    hide Run, Orders, ChargesOf, DeliveriesOf, OrdersOf, Honest;
    HonestNumbered(env, w);
    OwnMessagesOnly(env, w, w, ms, phone);
    OrderPlaced(env, w, Own(ms, phone), phone, vendor, items, address);
    SeeOrder(w, Run(env, w, Own(ms, phone)), Order(phone, vendor.id, items, address), Cost(items), true, true, phone);
  }

  // ----- The handler

  class WhatsApp {
    const env: Env
    var sessions: map<string, Session>
    var orders: seq<Order>
    var charges: seq<Charge>
    var deliveries: seq<nat>

    ghost function View(): World
      reads this
    {
      World(sessions, orders, charges, deliveries)
    }

    constructor (env: Env)
      ensures this.env == env && View() == EMPTY
    {
      this.env := env;
      sessions, orders, charges, deliveries := map[], [], [], [];
    }

    method SaveSession(phone: string, s: Session)
      modifies this`sessions
      ensures View() == Save(old(View()), phone, s)
    {
      sessions := sessions[phone := s];
    }

    method Total(items: seq<Item>) returns (total: int)
      ensures total == Sum(items)
    {
      total := 0;
      for i := 0 to |items|
        invariant total == Sum(items[..i])
      {
        assert items[..i + 1][..i] == items[..i];
        total := total + items[i].qty * items[i].price;
      }
      assert items[..|items|] == items;
    }

    /** The part of the flow after a customer has agreed. */
    method PlaceOrder(m: Msg, session: Session)
      requires session.vendorId.Some? && session.items.Some? && session.address.Some? && session.total.Some?
      modifies this
      ensures View() == StepConfirm(old(View()), m, session)
    {
      if m.failure == AtOrder { return; }
      var order := |orders|;
      orders := orders + [Order(m.phone, session.vendorId.value, session.items.value, session.address.value)];
      if m.failure == AtPay { return; }
      if !m.payOk { return; }
      charges := charges + [Charge(order, session.total.value)];
      if m.failure == AtNotify { return; }
      if m.failure == AtDelivery { return; }
      deliveries := deliveries + [order];
      if m.failure == AtRedirect || m.failure == AtSend { return; }
      SaveSession(m.phone, session.(state := Menu));
    }

    /** Handles one message. */
    method Run(m: Msg)
      requires Invariant(env, View())
      modifies this
      ensures Ready(Load(old(View()), m.phone)) && View() == Step(env, old(View()), m)
      ensures Invariant(env, View())
    {
      StepKeeps(env, View(), m);
      var session := if m.phone in sessions then sessions[m.phone] else NEW_SESSION;
      match session.state
      case Menu =>
        var cmd := Lower(m.text);
        if cmd == "1" || cmd == "order" || cmd == "order food" {
          SaveSession(m.phone, session.(state := AskVendor));
        } else if cmd == "2" || cmd == "wallet" || cmd == "load" {
        } else if cmd == "3" || cmd == "track" {
          SaveSession(m.phone, session.(state := Track));
        }
      case Track =>
        SaveSession(m.phone, session.(state := Menu));
      case AskVendor =>
        var vendor := env.findVendor(m.text);
        if vendor.None? { return; }
        SaveSession(m.phone, session.(state := AskItems, vendorId := Some(vendor.value.id),
                                      vendorName := Some(vendor.value.name)));
      case AskItems =>
        var validated := env.validate(session.vendorId.value, env.parseItems(m.text));
        if validated.None? { return; }
        SaveSession(m.phone, session.(state := AskAddress, items := validated));
      case AskAddress =>
        var address := env.parseAddress(m.text);
        if |address| < 4 { return; }
        var total := Total(session.items.value);
        SaveSession(m.phone, session.(state := Confirm, address := Some(address), total := Some(total)));
      case Confirm =>
        if !Agrees(m.text) {
          SaveSession(m.phone, session.(state := Menu));
          return;
        }
        PlaceOrder(m, session);
      case Unknown(_) =>
        SaveSession(m.phone, session.(state := Menu));
    }
  }
}
