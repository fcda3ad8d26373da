/** Sums over maps. */
module Sums {
  ghost function SumMap<K>(m: map<K, int>): int {
    if m == map[] then 0
    else
      var k :| k in m;
      m[k] + SumMap(m - {k})
  }

  lemma {:induction false} SumMapRemove<K>(m: map<K, int>, k: K)
    requires k in m
    ensures SumMap(m) == m[k] + SumMap(m - {k})
  {
    var c :| c in m && SumMap(m) == m[c] + SumMap(m - {c});
    if c != k {
      SumMapRemove(m - {c}, k);
      SumMapRemove(m - {k}, c);
      assert m - {c} - {k} == m - {k} - {c};
    }
  }

  /** The value at a key, 0 when there is none. */
  function Get<K>(m: map<K, int>, k: K): int {
    if k in m then m[k] else 0
  }

  lemma SumMapUpdate<K>(m: map<K, int>, k: K, v: int)
    ensures SumMap(m[k := v]) == SumMap(m) - Get(m, k) + v
  {
    SumMapRemove(m[k := v], k);
    if k in m {
      SumMapRemove(m, k);
      assert m[k := v] - {k} == m - {k};
    } else {
      assert m[k := v] - {k} == m;
    }
  }
}

/** The payment ledger: central accounts, wallets, provider transactions and the transaction log, and the requests
    that change them. One request is one step; the providers' answers and the database's choices are its inputs. */
module Ledger {
  import opened Numerals
  import opened Sums
  import opened Wrappers

  const MONNIFY: string := "monnify"
  const MONIEPOINT: string := "moniepoint"

  datatype Direction = In | Distribute

  /** A provider transaction. */
  datatype Row = Row(provider: string, ref: Option<string>, amount: int, direction: Direction,
                     central: Option<string>, target: Option<nat>, sourceTx: Option<Option<string>>, processed: bool)

  datatype Kind = Funding | CentralDebit | UserCredit | VendorPayout

  datatype Status = Success | Completed | Failed

  /** An entry of the transaction log; references are unique in it. */
  datatype Entry = Entry(user: Option<nat>, amount: int, kind: Kind, reference: string, status: Status)

  datatype State = State(centrals: map<string, int>, wallets: map<nat, int>, rows: seq<Row>, log: seq<Entry>)

  predicate Logged(log: seq<Entry>, reference: string) {
    exists i :: 0 <= i < |log| && log[i].reference == reference
  }

  predicate Known(rows: seq<Row>, txRef: Option<string>) {
    exists i :: 0 <= i < |rows| && rows[i].provider == MONNIFY && rows[i].ref == txRef
  }

  /** A request: what it carries, and what the providers and the database answer while it is handled. */
  datatype Request =
    | FundingRequest(provider: string, reference: string, amount: int, user: nat)
    | MonnifyComplete(txRef: Option<string>, amount: int, paid: bool, matched: Option<nat>)
    | FlutterwaveHook(reference: string, verified: bool, found: Option<nat>)
    | PaystackHook(reference: string, verified: bool, amount: int, found: Option<nat>)
    | Payout(user: nat, amount: int, reference: string, accepts: seq<bool>)

  /** The row the database found for a reference: any one that has it, or none if there is none. */
  predicate Answers(rows: seq<Row>, reference: string, found: Option<nat>) {
    match found
    case Some(i) => i < |rows| && rows[i].ref == Some(reference)
    case None => forall i :: 0 <= i < |rows| ==> rows[i].ref != Some(reference)
  }

  predicate Possible(s: State, q: Request) {
    match q
    case FlutterwaveHook(reference, _, found) => Answers(s.rows, reference, found)
    case PaystackHook(reference, _, _, found) => Answers(s.rows, reference, found)
    case Payout(_, _, _, accepts) => |accepts| == 3
    case _ => true
  }

  // ----- What each request does

  function IncomingRow(txRef: Option<string>, amount: int, processed: bool): Row {
    Row(MONNIFY, txRef, amount, In, Some(MONNIFY), None, None, processed)
  }

  function Name(txRef: Option<string>): string {
    if txRef.Some? then txRef.value else "None"
  }

  function DistributeRow(txRef: Option<string>, amount: int, user: nat): Row {
    Row("internal", Some("dist:" + Name(txRef) + ":" + Decimal(user)), amount, Distribute, Some(MONNIFY), Some(user),
        Some(txRef), true)
  }

  function FundingRow(provider: string, reference: string, amount: int, user: nat): Row {
    Row(provider, Some(reference), amount, In, None, Some(user), None, false)
  }

  function StepFunding(s: State, provider: string, reference: string, amount: int, user: nat): State {
    s.(rows := s.rows + [FundingRow(provider, reference, amount, user)])
  }

  /** An accepted Monnify payment goes to the central account; with a matching user it goes on to the wallet. */
  function StepMonnify(s: State, txRef: Option<string>, amount: int, matched: Option<nat>): State {
    match matched
    case None =>
      s.(centrals := s.centrals[MONNIFY := Get(s.centrals, MONNIFY) + amount],
         rows := s.rows + [IncomingRow(txRef, amount, false)])
    case Some(user) =>
      s.(centrals := s.centrals[MONNIFY := Get(s.centrals, MONNIFY)],
         wallets := s.wallets[user := Get(s.wallets, user) + amount],
         rows := s.rows + [IncomingRow(txRef, amount, true), DistributeRow(txRef, amount, user)])
  }

  /** The row a webhook may fund: found, not processed yet, for a user who has a wallet. */
  predicate Fundable(s: State, found: Option<nat>) {
    && found.Some? && found.value < |s.rows|
    && !s.rows[found.value].processed
    && s.rows[found.value].target.Some? && s.rows[found.value].target.value in s.wallets
  }

  predicate FlutterwaveFunds(s: State, reference: string, verified: bool, found: Option<nat>) {
    && reference != "" && verified && Fundable(s, found)
    && MONIEPOINT in s.centrals && s.centrals[MONIEPOINT] >= s.rows[found.value].amount
    && !Logged(s.log, "CENTRAL-" + reference) && !Logged(s.log, "USER-" + reference)
  }

  function StepFlutterwave(s: State, reference: string, i: nat): State
    requires Fundable(s, Some(i)) && MONIEPOINT in s.centrals
  {
    var r := s.rows[i];
    var user := r.target.value;
    State(s.centrals[MONIEPOINT := s.centrals[MONIEPOINT] - r.amount],
          s.wallets[user := s.wallets[user] + r.amount],
          s.rows[i := r.(processed := true)],
          s.log + [Entry(None, r.amount, CentralDebit, "CENTRAL-" + reference, Success),
                   Entry(Some(user), r.amount, UserCredit, "USER-" + reference, Success)])
  }

  predicate PaystackFunds(s: State, reference: string, verified: bool, found: Option<nat>) {
    reference != "" && verified && Fundable(s, found) && !Logged(s.log, reference)
  }

  function StepPaystack(s: State, reference: string, amount: int, i: nat): State
    requires Fundable(s, Some(i))
  {
    var user := s.rows[i].target.value;
    s.(wallets := s.wallets[user := s.wallets[user] + amount],
       rows := s.rows[i := s.rows[i].(processed := true)],
       log := s.log + [Entry(Some(user), amount, Funding, reference, Success)])
  }

  /** The first provider that does not fail; 3 when all of them do. */
  function FirstAccepting(accepts: seq<bool>): (p: nat)
    ensures p <= |accepts| && (p < |accepts| ==> accepts[p])
    ensures forall k :: 0 <= k < p ==> !accepts[k]
  {
    if accepts == [] || accepts[0] then 0 else 1 + FirstAccepting(accepts[1..])
  }

  predicate Accepted(accepts: seq<bool>) {
    FirstAccepting(accepts) < |accepts|
  }

  predicate CanDebit(wallets: map<nat, int>, user: nat, amount: int) {
    user in wallets && wallets[user] >= amount
  }

  function StepPayout(s: State, user: nat, amount: int, reference: string, accepts: seq<bool>): State {
    if Accepted(accepts) && CanDebit(s.wallets, user, amount) then
      s.(wallets := s.wallets[user := s.wallets[user] - amount],
         log := s.log + [Entry(Some(user), amount, VendorPayout, reference, Completed)])
    else s.(log := s.log + [Entry(Some(user), amount, VendorPayout, reference, Failed)])
  }

  function Step(s: State, q: Request): State
    requires Possible(s, q)
  {
    match q
    case FundingRequest(provider, reference, amount, user) =>
      StepFunding(s, provider, reference, amount, user)
    case MonnifyComplete(txRef, amount, paid, matched) =>
      if paid && !Known(s.rows, txRef) then StepMonnify(s, txRef, amount, matched) else s
    case FlutterwaveHook(reference, verified, found) =>
      if FlutterwaveFunds(s, reference, verified, found) then StepFlutterwave(s, reference, found.value) else s
    case PaystackHook(reference, verified, amount, found) =>
      if PaystackFunds(s, reference, verified, found) then StepPaystack(s, reference, amount, found.value) else s
    case Payout(user, amount, reference, accepts) =>
      if Logged(s.log, reference) then s else StepPayout(s, user, amount, reference, accepts)
  }

  /** The requests can be handled one after the other with those answers. */
  ghost predicate Feasible(s: State, qs: seq<Request>)
    decreases |qs|
  {
    qs == [] || (Possible(s, qs[0]) && Feasible(Step(s, qs[0]), qs[1..]))
  }

  ghost function Run(s: State, qs: seq<Request>): State
    requires Feasible(s, qs)
    decreases |qs|
  {
    if qs == [] then s else Run(Step(s, qs[0]), qs[1..])
  }

  // ----- Whole-run accounting

  ghost function Total(s: State): int {
    SumMap(s.centrals) + SumMap(s.wallets)
  }

  predicate Incoming(r: Row) {
    r.direction == In && r.central == Some(MONNIFY)
  }

  /** What a row counts for: an incoming amount, or only an unprocessed one. */
  function Counted(r: Row, unprocessed: bool): int {
    if Incoming(r) && !(unprocessed && r.processed) then r.amount else 0
  }

  /** The incoming amounts, all of them or the unprocessed ones. */
  function RowSum(rows: seq<Row>, unprocessed: bool): int {
    if rows == [] then 0
    else RowSum(rows[..|rows| - 1], unprocessed) + Counted(rows[|rows| - 1], unprocessed)
  }

  lemma RowSumSnoc(rows: seq<Row>, r: Row, unprocessed: bool)
    ensures RowSum(rows + [r], unprocessed) == RowSum(rows, unprocessed) + Counted(r, unprocessed)
  {
    assert (rows + [r])[..|rows|] == rows;
  }

  lemma {:induction false} RowSumUpdate(rows: seq<Row>, i: nat, r: Row, unprocessed: bool)
    requires i < |rows|
    ensures RowSum(rows[i := r], unprocessed)
         == RowSum(rows, unprocessed) - Counted(rows[i], unprocessed) + Counted(r, unprocessed)
  {
    var last := |rows| - 1;
    if i == last {
      assert rows[i := r][..last] == rows[..last];
    } else {
      assert rows[i := r][..last] == rows[..last][i := r];
      RowSumUpdate(rows[..last], i, r, unprocessed);
    }
  }

  function LoggedAmount(e: Entry): int {
    if e.kind == Funding then e.amount
    else if e.kind == VendorPayout && e.status == Completed then -e.amount
    else 0
  }

  /** The funded amounts less the amounts of completed payouts. */
  function LogSum(log: seq<Entry>): int {
    if log == [] then 0 else LogSum(log[..|log| - 1]) + LoggedAmount(log[|log| - 1])
  }

  lemma LogSumSnoc(log: seq<Entry>, e: Entry)
    ensures LogSum(log + [e]) == LogSum(log) + LoggedAmount(e)
  {
    assert (log + [e])[..|log|] == log;
  }

  lemma LogSumTwo(log: seq<Entry>, d: Entry, e: Entry)
    ensures LogSum(log + [d, e]) == LogSum(log) + LoggedAmount(d) + LoggedAmount(e)
  {
    assert log + [d, e] == (log + [d]) + [e];
    LogSumSnoc(log, d);
    LogSumSnoc(log + [d], e);
  }

  lemma RowSumTwo(rows: seq<Row>, q: Row, r: Row, unprocessed: bool)
    ensures RowSum(rows + [q, r], unprocessed)
         == RowSum(rows, unprocessed) + Counted(q, unprocessed) + Counted(r, unprocessed)
  {
    assert rows + [q, r] == (rows + [q]) + [r];
    RowSumSnoc(rows, q, unprocessed);
    RowSumSnoc(rows + [q], r, unprocessed);
  }

  /** What the records say came in from outside, less what they say was paid out. */
  ghost function Recorded(s: State): int {
    RowSum(s.rows, false) + LogSum(s.log)
  }

  /** Records are never counted twice: a Monnify payment has one incoming row, a log reference one entry. */
  predicate Distinct(s: State) {
    && (forall i, j :: 0 <= i < j < |s.rows| && Incoming(s.rows[i]) && Incoming(s.rows[j]) ==>
          s.rows[i].ref != s.rows[j].ref)
    && (forall i, j :: 0 <= i < j < |s.log| ==> s.log[i].reference != s.log[j].reference)
  }

  /** Incoming Monnify rows are what the Monnify request writes: they have no target user. */
  predicate IncomingUntargeted(s: State) {
    forall i :: 0 <= i < |s.rows| && Incoming(s.rows[i]) ==> s.rows[i].provider == MONNIFY && s.rows[i].target == None
  }

  lemma FundingTotals(s: State, provider: string, reference: string, amount: int, user: nat)
    ensures var t := StepFunding(s, provider, reference, amount, user);
            Total(t) == Total(s) && Recorded(t) == Recorded(s)
  {
    RowSumSnoc(s.rows, FundingRow(provider, reference, amount, user), false);
  }

  lemma MonnifyTotals(s: State, txRef: Option<string>, amount: int, matched: Option<nat>)
    ensures var t := StepMonnify(s, txRef, amount, matched);
            Total(t) == Total(s) + amount && Recorded(t) == Recorded(s) + amount
  {
    match matched
    case None =>
      SumMapUpdate(s.centrals, MONNIFY, Get(s.centrals, MONNIFY) + amount);
      RowSumSnoc(s.rows, IncomingRow(txRef, amount, false), false);
    case Some(user) =>
      SumMapUpdate(s.centrals, MONNIFY, Get(s.centrals, MONNIFY));
      SumMapUpdate(s.wallets, user, Get(s.wallets, user) + amount);
      RowSumTwo(s.rows, IncomingRow(txRef, amount, true), DistributeRow(txRef, amount, user), false);
  }

  /** The Flutterwave webhook only moves money. */
  lemma FlutterwaveTotals(s: State, reference: string, verified: bool, i: nat)
    requires FlutterwaveFunds(s, reference, verified, Some(i))
    ensures var t := StepFlutterwave(s, reference, i);
            && Total(t) == Total(s) && Recorded(t) == Recorded(s)
            && t.centrals[MONIEPOINT] >= 0
            && (forall p <- s.centrals :: p != MONIEPOINT ==> t.centrals[p] == s.centrals[p])
  {
    var r := s.rows[i];
    var user := r.target.value;
    SumMapUpdate(s.centrals, MONIEPOINT, s.centrals[MONIEPOINT] - r.amount);
    SumMapUpdate(s.wallets, user, s.wallets[user] + r.amount);
    RowSumUpdate(s.rows, i, r.(processed := true), false);
    var d, c := Entry(None, r.amount, CentralDebit, "CENTRAL-" + reference, Success),
                Entry(Some(user), r.amount, UserCredit, "USER-" + reference, Success);
    LogSumTwo(s.log, d, c);
  }

  lemma PaystackTotals(s: State, reference: string, amount: int, i: nat)
    requires Fundable(s, Some(i))
    ensures var t := StepPaystack(s, reference, amount, i);
            Total(t) == Total(s) + amount && Recorded(t) == Recorded(s) + amount
  {
    var t := StepPaystack(s, reference, amount, i);
    var r := s.rows[i];
    var user := r.target.value;
    assert Total(t) == Total(s) + amount by {
      SumMapUpdate(s.wallets, user, s.wallets[user] + amount);
    }
    assert Recorded(t) == Recorded(s) + amount by {
      RowSumUpdate(s.rows, i, r.(processed := true), false);
      LogSumSnoc(s.log, Entry(Some(user), amount, Funding, reference, Success));
    }
  }

  lemma PayoutTotals(s: State, user: nat, amount: int, reference: string, accepts: seq<bool>)
    ensures var t := StepPayout(s, user, amount, reference, accepts);
            Total(t) - Total(s) == Recorded(t) - Recorded(s)
  {
    if Accepted(accepts) && CanDebit(s.wallets, user, amount) {
      SumMapUpdate(s.wallets, user, s.wallets[user] - amount);
      LogSumSnoc(s.log, Entry(Some(user), amount, VendorPayout, reference, Completed));
    } else {
      LogSumSnoc(s.log, Entry(Some(user), amount, VendorPayout, reference, Failed));
    }
  }

  /** Whatever a request does, the money held changes by what the records say. */
  lemma StepConserves(s: State, q: Request)
    requires Possible(s, q)
    ensures Total(Step(s, q)) - Recorded(Step(s, q)) == Total(s) - Recorded(s)
  {
    match q
    case FundingRequest(provider, reference, amount, user) => FundingTotals(s, provider, reference, amount, user);
    case MonnifyComplete(txRef, amount, paid, matched) =>
      if paid && !Known(s.rows, txRef) { MonnifyTotals(s, txRef, amount, matched); }
    case FlutterwaveHook(reference, verified, found) =>
      if FlutterwaveFunds(s, reference, verified, found) {
        FlutterwaveTotals(s, reference, verified, found.value);
      }
    case PaystackHook(reference, verified, amount, found) =>
      if PaystackFunds(s, reference, verified, found) { PaystackTotals(s, reference, amount, found.value); }
    case Payout(user, amount, reference, accepts) =>
      if !Logged(s.log, reference) { PayoutTotals(s, user, amount, reference, accepts); }
  }

  lemma FlutterwaveDistinct(s: State, reference: string, verified: bool, i: nat)
    requires FlutterwaveFunds(s, reference, verified, Some(i)) && Distinct(s) && IncomingUntargeted(s)
    ensures Distinct(StepFlutterwave(s, reference, i)) && IncomingUntargeted(StepFlutterwave(s, reference, i))
  {
    assert ("CENTRAL-" + reference)[0] != ("USER-" + reference)[0];
  }

  lemma MonnifyDistinct(s: State, txRef: Option<string>, amount: int, matched: Option<nat>)
    requires Distinct(s) && IncomingUntargeted(s) && !Known(s.rows, txRef)
    ensures var t := StepMonnify(s, txRef, amount, matched);
            Distinct(t) && IncomingUntargeted(t)
  {
    assert forall i :: 0 <= i < |s.rows| && Incoming(s.rows[i]) ==> s.rows[i].ref != txRef;
  }

  lemma StepDistinct(s: State, q: Request)
    requires Possible(s, q) && Distinct(s) && IncomingUntargeted(s)
    ensures Distinct(Step(s, q)) && IncomingUntargeted(Step(s, q))
  {
    match q
    case FundingRequest(_, _, _, _) =>
    case MonnifyComplete(txRef, amount, paid, matched) =>
      if paid && !Known(s.rows, txRef) { MonnifyDistinct(s, txRef, amount, matched); }
    case FlutterwaveHook(reference, verified, found) =>
      if FlutterwaveFunds(s, reference, verified, found) {
        FlutterwaveDistinct(s, reference, verified, found.value);
      }
    case PaystackHook(reference, verified, amount, found) =>
    case Payout(user, amount, reference, accepts) =>
  }

  /** After any run of requests, the money held has changed by exactly what the records of the run say: each
      Monnify reference accepted once, each reference funded through Paystack once, less the completed payouts. */
  lemma {:induction false} RunConserves(s: State, qs: seq<Request>)
    requires Feasible(s, qs) && Distinct(s) && IncomingUntargeted(s)
    ensures Total(Run(s, qs)) == Total(s) + (Recorded(Run(s, qs)) - Recorded(s))
    ensures Distinct(Run(s, qs)) && IncomingUntargeted(Run(s, qs))
    decreases |qs|
  {
    if qs != [] {
      StepConserves(s, qs[0]);
      StepDistinct(s, qs[0]);
      RunConserves(Step(s, qs[0]), qs[1..]);
    }
  }

  // ----- The Monnify central account

  predicate Distribution(r: Row) {
    r.direction == Distribute
  }

  /** How many distributions a payment has. */
  function DistCount(rows: seq<Row>, txRef: Option<string>): nat {
    if rows == [] then 0
    else DistCount(rows[..|rows| - 1], txRef)
         + if Distributes(rows[|rows| - 1], txRef) then 1 else 0
  }

  predicate Distributes(r: Row, txRef: Option<string>) {
    Distribution(r) && r.sourceTx == Some(txRef)
  }

  lemma DistCountSnoc(rows: seq<Row>, r: Row, txRef: Option<string>)
    ensures DistCount(rows + [r], txRef) == DistCount(rows, txRef) + if Distributes(r, txRef) then 1 else 0
  {
    assert (rows + [r])[..|rows|] == rows;
  }

  lemma {:induction false} DistCountUpdate(rows: seq<Row>, i: nat, r: Row, txRef: Option<string>)
    requires i < |rows| && !Distribution(rows[i]) && !Distribution(r)
    ensures DistCount(rows[i := r], txRef) == DistCount(rows, txRef)
  {
    var last := |rows| - 1;
    if i == last {
      assert rows[i := r][..last] == rows[..last];
    } else {
      assert rows[i := r][..last] == rows[..last][i := r];
      DistCountUpdate(rows[..last], i, r, txRef);
    }
  }

  lemma {:induction false} NoDistributions(rows: seq<Row>, txRef: Option<string>)
    requires forall j :: 0 <= j < |rows| ==> !Distributes(rows[j], txRef)
    ensures DistCount(rows, txRef) == 0
  {
    if rows != [] {
      NoDistributions(rows[..|rows| - 1], txRef);
    }
  }

  /** The distribution `d` passes on the payment `r`, in full. */
  predicate PassesOn(d: Row, r: Row) {
    Incoming(r) && d.sourceTx == Some(r.ref) && d.amount == r.amount
  }

  /** Each processed payment has one distribution, each other one none, and every distribution passes a payment on. */
  predicate Reconciled(rows: seq<Row>) {
    && (forall i :: 0 <= i < |rows| && Incoming(rows[i]) ==>
          && rows[i].provider == MONNIFY && rows[i].target == None
          && DistCount(rows, rows[i].ref) == if rows[i].processed then 1 else 0)
    && (forall i, j :: 0 <= i < j < |rows| && Incoming(rows[i]) && Incoming(rows[j]) ==> rows[i].ref != rows[j].ref)
    && (forall j :: 0 <= j < |rows| && Distribution(rows[j]) ==>
          rows[j].processed && exists i :: 0 <= i < |rows| && PassesOn(rows[j], rows[i]))
  }

  /** The central balance is what was received and not yet distributed. */
  predicate CentralInvariant(s: State) {
    Reconciled(s.rows) && Get(s.centrals, MONNIFY) == RowSum(s.rows, true)
  }

  lemma ReconciledAppend(rows: seq<Row>, r: Row)
    requires Reconciled(rows) && !Incoming(r) && !Distribution(r)
    ensures Reconciled(rows + [r]) && RowSum(rows + [r], true) == RowSum(rows, true)
  {
    var rows' := rows + [r];
    RowSumSnoc(rows, r, true);
    forall i | 0 <= i < |rows'| && Incoming(rows'[i])
      ensures DistCount(rows', rows'[i].ref) == if rows'[i].processed then 1 else 0
    {
      DistCountSnoc(rows, r, rows'[i].ref);
    }
    forall j | 0 <= j < |rows'| && Distribution(rows'[j])
      ensures exists i :: 0 <= i < |rows'| && PassesOn(rows'[j], rows'[i])
    {
      var i :| 0 <= i < |rows| && PassesOn(rows[j], rows[i]);
      assert PassesOn(rows'[j], rows'[i]);
    }
  }

  lemma ReconciledUpdate(rows: seq<Row>, k: nat, r: Row)
    requires Reconciled(rows) && k < |rows| && rows[k].target.Some? && !rows[k].processed
    requires r == rows[k].(processed := true)
    ensures Reconciled(rows[k := r]) && RowSum(rows[k := r], true) == RowSum(rows, true)
  {
    var rows' := rows[k := r];
    RowSumUpdate(rows, k, r, true);
    forall i | 0 <= i < |rows'| && Incoming(rows'[i])
      ensures DistCount(rows', rows'[i].ref) == if rows'[i].processed then 1 else 0
    {
      DistCountUpdate(rows, k, r, rows'[i].ref);
    }
    forall j | 0 <= j < |rows'| && Distribution(rows'[j])
      ensures exists i :: 0 <= i < |rows'| && PassesOn(rows'[j], rows'[i])
    {
      var i :| 0 <= i < |rows| && PassesOn(rows[j], rows[i]);
      assert PassesOn(rows'[j], rows'[i]);
    }
  }

  /** A payment not seen before has no distribution. */
  lemma UnknownUndistributed(rows: seq<Row>, txRef: Option<string>)
    requires Reconciled(rows) && !Known(rows, txRef)
    ensures DistCount(rows, txRef) == 0
    ensures forall i :: 0 <= i < |rows| && Incoming(rows[i]) ==> rows[i].ref != txRef
  {
    forall j | 0 <= j < |rows|
      ensures !Distributes(rows[j], txRef)
    {
      assert forall i :: 0 <= i < |rows| && PassesOn(rows[j], rows[i]) ==> rows[i].ref != txRef;
    }
    NoDistributions(rows, txRef);
  }

  lemma ReconciledUnmatched(rows: seq<Row>, txRef: Option<string>, amount: int)
    requires Reconciled(rows) && !Known(rows, txRef)
    ensures var r := IncomingRow(txRef, amount, false);
            Reconciled(rows + [r]) && RowSum(rows + [r], true) == RowSum(rows, true) + amount
  {
    var r := IncomingRow(txRef, amount, false);
    var rows' := rows + [r];
    UnknownUndistributed(rows, txRef);
    RowSumSnoc(rows, r, true);
    forall i | 0 <= i < |rows'| && Incoming(rows'[i])
      ensures DistCount(rows', rows'[i].ref) == if rows'[i].processed then 1 else 0
    {
      DistCountSnoc(rows, r, rows'[i].ref);
    }
    forall j | 0 <= j < |rows'| && Distribution(rows'[j])
      ensures exists i :: 0 <= i < |rows'| && PassesOn(rows'[j], rows'[i])
    {
      var i :| 0 <= i < |rows| && PassesOn(rows[j], rows[i]);
      assert PassesOn(rows'[j], rows'[i]);
    }
  }

  lemma ReconciledMatched(rows: seq<Row>, txRef: Option<string>, amount: int, user: nat)
    requires Reconciled(rows) && !Known(rows, txRef)
    ensures var q, d := IncomingRow(txRef, amount, true), DistributeRow(txRef, amount, user);
            Reconciled(rows + [q, d]) && RowSum(rows + [q, d], true) == RowSum(rows, true)
  {
    var q, d := IncomingRow(txRef, amount, true), DistributeRow(txRef, amount, user);
    var rows' := rows + [q, d];
    UnknownUndistributed(rows, txRef);
    RowSumTwo(rows, q, d, true);
    forall i | 0 <= i < |rows'| && Incoming(rows'[i])
      ensures rows'[i].provider == MONNIFY && rows'[i].target == None
      ensures DistCount(rows', rows'[i].ref) == if rows'[i].processed then 1 else 0
    {
      MatchedCounts(rows, q, d, rows'[i].ref);
      assert i == |rows| || rows'[i] == rows[i];
    }
    forall j | 0 <= j < |rows'| && Distribution(rows'[j])
      ensures rows'[j].processed && exists i :: 0 <= i < |rows'| && PassesOn(rows'[j], rows'[i])
    {
      MatchedPassesOn(rows, q, d, j);
    }
  }

  lemma MatchedCounts(rows: seq<Row>, q: Row, d: Row, txRef: Option<string>)
    requires !Distribution(q) && Distribution(d)
    ensures DistCount(rows + [q, d], txRef) == DistCount(rows, txRef) + if d.sourceTx == Some(txRef) then 1 else 0
  {
    assert rows + [q, d] == rows + [q] + [d];
    DistCountSnoc(rows, q, txRef);
    DistCountSnoc(rows + [q], d, txRef);
  }

  lemma MatchedPassesOn(rows: seq<Row>, q: Row, d: Row, j: nat)
    requires Reconciled(rows) && PassesOn(d, q) && !Distribution(q)
    requires j < |rows| + 2 && Distribution((rows + [q, d])[j])
    ensures var rows' := rows + [q, d];
            exists i :: 0 <= i < |rows'| && PassesOn(rows'[j], rows'[i])
  {
    var rows' := rows + [q, d];
    if j < |rows| {
      var i :| 0 <= i < |rows| && PassesOn(rows[j], rows[i]);
      assert PassesOn(rows'[j], rows'[i]);
    } else {
      assert rows'[|rows|] == q && rows'[j] == d;
    }
  }

  lemma StepKeepsCentral(s: State, q: Request)
    requires Possible(s, q) && CentralInvariant(s)
    ensures CentralInvariant(Step(s, q))
  {
    match q
    case FundingRequest(provider, reference, amount, user) =>
      ReconciledAppend(s.rows, FundingRow(provider, reference, amount, user));
    case MonnifyComplete(txRef, amount, paid, matched) =>
      if paid && !Known(s.rows, txRef) {
        match matched
        case None => ReconciledUnmatched(s.rows, txRef, amount);
        case Some(user) => ReconciledMatched(s.rows, txRef, amount, user);
      }
    case FlutterwaveHook(reference, verified, found) =>
      if FlutterwaveFunds(s, reference, verified, found) {
        var i := found.value;
        ReconciledUpdate(s.rows, i, s.rows[i].(processed := true));
        assert |MONIEPOINT| != |MONNIFY|;
      }
    case PaystackHook(reference, verified, amount, found) =>
      if PaystackFunds(s, reference, verified, found) {
        var i := found.value;
        ReconciledUpdate(s.rows, i, s.rows[i].(processed := true));
      }
    case Payout(user, amount, reference, accepts) =>
  }

  /** After any run, the "monnify" balance is the sum of the payments still waiting, each distributed payment has
      exactly one distribution of its amount, and none of the other requests can break that. */
  lemma {:induction false} RunKeepsCentral(s: State, qs: seq<Request>)
    requires Feasible(s, qs) && CentralInvariant(s)
    ensures CentralInvariant(Run(s, qs))
    decreases |qs|
  {
    if qs != [] {
      StepKeepsCentral(s, qs[0]);
      RunKeepsCentral(Step(s, qs[0]), qs[1..]);
    }
  }

  // ----- Wallets and payouts

  predicate NonNegative(s: State) {
    && (forall u <- s.wallets :: s.wallets[u] >= 0)
    && (forall i :: 0 <= i < |s.rows| ==> s.rows[i].amount >= 0)
  }

  /** The amounts a request brings in are not negative; payouts may ask for anything. */
  predicate NonNegativeRequest(q: Request) {
    match q
    case FundingRequest(_, _, amount, _) => amount >= 0
    case MonnifyComplete(_, amount, _, _) => amount >= 0
    case PaystackHook(_, _, amount, _) => amount >= 0
    case _ => true
  }

  lemma StepKeepsNonNegative(s: State, q: Request)
    requires Possible(s, q) && NonNegative(s) && NonNegativeRequest(q)
    ensures NonNegative(Step(s, q))
  {
  }

  /** No run makes a wallet negative. */
  lemma {:induction false} RunKeepsNonNegative(s: State, qs: seq<Request>)
    requires Feasible(s, qs) && NonNegative(s) && forall i :: 0 <= i < |qs| ==> NonNegativeRequest(qs[i])
    ensures NonNegative(Run(s, qs))
    decreases |qs|
  {
    if qs != [] {
      StepKeepsNonNegative(s, qs[0]);
      RunKeepsNonNegative(Step(s, qs[0]), qs[1..]);
    }
  }

  /** Only a payout that some provider accepted takes money from a wallet, exactly its amount, and it is logged. */
  lemma DebitOnlyByAcceptedPayout(s: State, q: Request, user: nat)
    requires Possible(s, q) && NonNegative(s) && NonNegativeRequest(q)
    requires user in s.wallets && user in Step(s, q).wallets && Step(s, q).wallets[user] < s.wallets[user]
    ensures && q.Payout? && Accepted(q.accepts) && q.user == user
            && Step(s, q).wallets[user] == s.wallets[user] - q.amount
            && Step(s, q).log == s.log + [Entry(Some(user), q.amount, VendorPayout, q.reference, Completed)]
  {
  }

  /** A wallet grows by a payment made out to its owner and not accepted before, or by the transaction the owner
      started, which is then marked as processed; no other request adds to it. */
  lemma CreditOnlyByPayment(s: State, q: Request, user: nat)
    requires Possible(s, q) && NonNegative(s) && NonNegativeRequest(q)
    requires !(q.Payout? && q.amount < 0)
    requires Get(Step(s, q).wallets, user) > Get(s.wallets, user)
    ensures var gain := Get(Step(s, q).wallets, user) - Get(s.wallets, user);
            match q
            case MonnifyComplete(txRef, amount, paid, matched) =>
              paid && !Known(s.rows, txRef) && matched == Some(user) && gain == amount
            case FlutterwaveHook(reference, verified, found) =>
              verified && StartedBy(s, Step(s, q), reference, found, user) && gain == s.rows[found.value].amount
            case PaystackHook(reference, verified, amount, found) =>
              verified && StartedBy(s, Step(s, q), reference, found, user) && gain == amount
            case _ => false
  {
  }

  /** The row found is the user's own transaction with that reference, processed in `t` and not yet in `s`. */
  predicate StartedBy(s: State, t: State, reference: string, found: Option<nat>, user: nat) {
    && found.Some? && found.value < |s.rows| && |t.rows| == |s.rows|
    && s.rows[found.value].ref == Some(reference) && s.rows[found.value].target == Some(user)
    && !s.rows[found.value].processed && t.rows[found.value].processed
  }

  // ----- When a wallet changes, and what is recorded then

  /** The row found is the user's and not processed yet, and the user has a wallet. */
  predicate Awaits(s: State, found: Option<nat>, user: nat) {
    && found.Some? && found.value < |s.rows| && !s.rows[found.value].processed
    && s.rows[found.value].target == Some(user) && user in s.wallets
  }

  /** No entry of the log has the reference. */
  predicate Free(log: seq<Entry>, reference: string) {
    forall i :: 0 <= i < |log| ==> log[i].reference != reference
  }

  /** No Monnify row has the reference. */
  predicate Unknown(rows: seq<Row>, txRef: Option<string>) {
    forall i :: 0 <= i < |rows| ==> rows[i].provider != "monnify" || rows[i].ref != txRef
  }

  /** The request moves this much money into the user's wallet: a paid and matched notification not seen before, a
      verified webhook for the user's own open transaction, or a new payout that some provider accepts and the wallet
      can pay. */
  predicate Moves(s: State, q: Request, user: nat, change: int) {
    match q
    case FundingRequest(_, _, _, _) => false
    case MonnifyComplete(txRef, amount, paid, matched) =>
      paid && matched == Some(user) && change == amount && Unknown(s.rows, txRef)
    case FlutterwaveHook(reference, verified, found) =>
      && reference != "" && verified && Awaits(s, found, user) && change == s.rows[found.value].amount
      && "moniepoint" in s.centrals && s.centrals["moniepoint"] >= change
      && Free(s.log, "CENTRAL-" + reference) && Free(s.log, "USER-" + reference)
    case PaystackHook(reference, verified, amount, found) =>
      reference != "" && verified && Awaits(s, found, user) && change == amount && Free(s.log, reference)
    case Payout(payer, amount, reference, accepts) =>
      && payer == user && change == -amount && Free(s.log, reference) && true in accepts
      && user in s.wallets && s.wallets[user] >= amount
  }

  lemma {:induction false} AcceptedIff(accepts: seq<bool>)
    ensures Accepted(accepts) <==> true in accepts
  {
    var p := FirstAccepting(accepts);
    if p < |accepts| { assert accepts[p]; }
  }

  /** A wallet changes by an amount if and only if the request moves that amount; the other wallets stay as they are. */
  lemma WalletMovesIff(s: State, q: Request, user: nat, change: int)
    requires Possible(s, q) && change != 0
    ensures Get(Step(s, q).wallets, user) == Get(s.wallets, user) + change <==> Moves(s, q, user, change)
    ensures Moves(s, q, user, change) ==>
              Step(s, q).wallets == s.wallets[user := Get(s.wallets, user) + change]
  {
    if q.Payout? { AcceptedIff(q.accepts); }
  }

  /** With the wallet the request's rows, log entries and central accounts change: a matched notification is recorded
      as processed with its distribution and leaves the central balance as it was, a webhook marks its transaction and
      logs what it did, Flutterwave's out of the "moniepoint" account, and a payout is logged as completed. */
  lemma MoveRecorded(s: State, q: Request, user: nat, change: int)
    requires Possible(s, q) && Moves(s, q, user, change)
    ensures var t := Step(s, q);
            match q
            case MonnifyComplete(txRef, _, _, _) =>
              var name := if txRef.Some? then txRef.value else "None";
              && t.rows == s.rows
                   + [Row("monnify", txRef, change, In, Some("monnify"), None, None, true),
                      Row("internal", Some("dist:" + name + ":" + Decimal(user)), change, Distribute, Some("monnify"),
                          Some(user), Some(txRef), true)]
              && t.log == s.log && t.centrals == s.centrals["monnify" := Get(s.centrals, "monnify")]
            case FlutterwaveHook(reference, _, found) =>
              && t.rows == s.rows[found.value := s.rows[found.value].(processed := true)]
              && t.log == s.log + [Entry(None, change, CentralDebit, "CENTRAL-" + reference, Success),
                                   Entry(Some(user), change, UserCredit, "USER-" + reference, Success)]
              && t.centrals == s.centrals["moniepoint" := s.centrals["moniepoint"] - change]
            case PaystackHook(reference, _, _, found) =>
              && t.rows == s.rows[found.value := s.rows[found.value].(processed := true)]
              && t.log == s.log + [Entry(Some(user), change, Funding, reference, Success)]
              && t.centrals == s.centrals
            case Payout(_, amount, reference, _) =>
              && t.rows == s.rows && t.centrals == s.centrals
              && t.log == s.log + [Entry(Some(user), amount, VendorPayout, reference, Completed)]
            case _ => false
  {
    if q.Payout? { AcceptedIff(q.accepts); }
  }

  /** A request that moves nothing starts a funding, receives an unmatched payment into the "monnify" account, logs a
      failed payout, or changes nothing at all. */
  lemma RecordedWithoutMove(s: State, q: Request)
    requires Possible(s, q) && forall user: nat, change: int :: !Moves(s, q, user, change)
    ensures Step(s, q) ==
            match q
            case FundingRequest(provider, reference, amount, user) =>
              s.(rows := s.rows + [Row(provider, Some(reference), amount, In, None, Some(user), None, false)])
            case MonnifyComplete(txRef, amount, paid, matched) =>
              if paid && Unknown(s.rows, txRef) then
                s.(centrals := s.centrals["monnify" := Get(s.centrals, "monnify") + amount],
                   rows := s.rows + [Row("monnify", txRef, amount, In, Some("monnify"), None, None, false)])
              else s
            case Payout(user, amount, reference, _) =>
              if Free(s.log, reference) then
                s.(log := s.log + [Entry(Some(user), amount, VendorPayout, reference, Failed)])
              else s
            case _ => s
  {
    match q
    case FundingRequest(_, _, _, _) =>
    case MonnifyComplete(txRef, amount, paid, matched) =>
      if matched.Some? { assert !Moves(s, q, matched.value, amount); }
    case FlutterwaveHook(_, _, found) =>
      if found.Some? && s.rows[found.value].target.Some? {
        assert !Moves(s, q, s.rows[found.value].target.value, s.rows[found.value].amount);
      }
    case PaystackHook(_, _, amount, found) =>
      if found.Some? && s.rows[found.value].target.Some? {
        assert !Moves(s, q, s.rows[found.value].target.value, amount);
      }
    case Payout(user, amount, _, accepts) =>
      AcceptedIff(accepts);
      assert !Moves(s, q, user, -amount);
  }

  lemma ThreeRequests(s: State, a: Request, b: Request, c: Request)
    requires Possible(s, a) && Possible(Step(s, a), b) && Possible(Step(Step(s, a), b), c)
    ensures Feasible(s, [a, b, c]) && Run(s, [a, b, c]) == Step(Step(Step(s, a), b), c)
  {
    hide Step, Possible;
    var t := Step(Step(s, a), b);
    assert [a, b, c][1..] == [b, c] && [b, c][1..] == [c] && [c][1..] == [];
    assert Feasible(Step(t, c), []) && Feasible(t, [c]) && Feasible(Step(s, a), [b, c]);
    assert Run(t, [c]) == Step(t, c) && Run(Step(s, a), [b, c]) == Run(t, [c]);
  }

  /** The open transaction `i` is confirmed by the Paystack webhook, twice. */
  lemma ConfirmedTwice(s: State, i: nat, reference: string, paid: int, user: nat)
    requires reference != "" && Awaits(s, Some(i), user) && Free(s.log, reference) && s.rows[i].ref == Some(reference)
    ensures var hook := PaystackHook(reference, true, paid, Some(i));
            var t := Step(s, hook);
            && Possible(s, hook) && Possible(t, hook) && Step(t, hook) == t
            && t.wallets == s.wallets[user := s.wallets[user] + paid]
            && t.rows == s.rows[i := s.rows[i].(processed := true)]
  {
    var hook := PaystackHook(reference, true, paid, Some(i));
    MoveRecorded(s, hook, user, paid);
    assert Step(s, hook).rows[i].processed;
  }

  /** A funding that is started and then confirmed by the Paystack webhook arrives in the wallet, once: confirming it
      again changes nothing. */
  lemma FundingArrives(s: State, provider: string, reference: string, amount: int, paid: int, user: nat)
    requires reference != "" && user in s.wallets && Free(s.log, reference)
    ensures var start, hook := FundingRequest(provider, reference, amount, user),
                               PaystackHook(reference, true, paid, Some(|s.rows|));
            && Feasible(s, [start, hook, hook])
            && var t := Run(s, [start, hook, hook]);
               && t.wallets == s.wallets[user := s.wallets[user] + paid]
               && t.rows == s.rows + [Row(provider, Some(reference), amount, In, None, Some(user), None, true)]
  {
    hide Step, PaystackFunds, FlutterwaveFunds;
    var start, hook := FundingRequest(provider, reference, amount, user),
                       PaystackHook(reference, true, paid, Some(|s.rows|));
    RecordedWithoutMove(s, start);
    var s1 := Step(s, start);
    ConfirmedTwice(s1, |s.rows|, reference, paid, user);
    ThreeRequests(s, start, hook, hook);
    var row := s1.rows[|s.rows|];
    assert s1.rows[|s.rows| := row.(processed := true)] == s.rows + [row.(processed := true)];
  }

  /** What a provider pays out for a request. */
  function PaidOut(s: State, q: Request): int {
    if q.Payout? && !Logged(s.log, q.reference) && Accepted(q.accepts) then q.amount else 0
  }

  /** What a payout takes from the user's wallet. */
  function Debited(s: State, q: Request): int {
    if q.Payout? && !Logged(s.log, q.reference) && Accepted(q.accepts) && CanDebit(s.wallets, q.user, q.amount)
    then q.amount else 0
  }

  ghost function RunPaidOut(s: State, qs: seq<Request>): int
    requires Feasible(s, qs)
    decreases |qs|
  {
    if qs == [] then 0 else PaidOut(s, qs[0]) + RunPaidOut(Step(s, qs[0]), qs[1..])
  }

  ghost function RunDebited(s: State, qs: seq<Request>): int
    requires Feasible(s, qs)
    decreases |qs|
  {
    if qs == [] then 0 else Debited(s, qs[0]) + RunDebited(Step(s, qs[0]), qs[1..])
  }

  /** The amounts of the completed payouts in the log. */
  function CompletedSum(log: seq<Entry>): int {
    if log == [] then 0 else CompletedSum(log[..|log| - 1]) + CompletedAmount(log[|log| - 1])
  }

  function CompletedAmount(e: Entry): int {
    if e.kind == VendorPayout && e.status == Completed then e.amount else 0
  }

  lemma CompletedSnoc(log: seq<Entry>, e: Entry)
    ensures CompletedSum(log + [e]) == CompletedSum(log) + CompletedAmount(e)
  {
    assert (log + [e])[..|log|] == log;
  }

  lemma CompletedTwo(log: seq<Entry>, d: Entry, e: Entry)
    ensures CompletedSum(log + [d, e]) == CompletedSum(log) + CompletedAmount(d) + CompletedAmount(e)
  {
    assert log + [d, e] == (log + [d]) + [e];
    CompletedSnoc(log, d);
    CompletedSnoc(log + [d], e);
  }

  lemma PayoutCompleted(s: State, user: nat, amount: int, reference: string, accepts: seq<bool>)
    ensures CompletedSum(StepPayout(s, user, amount, reference, accepts).log) ==
            CompletedSum(s.log) + if Accepted(accepts) && CanDebit(s.wallets, user, amount) then amount else 0
  {
    var status := if Accepted(accepts) && CanDebit(s.wallets, user, amount) then Completed else Failed;
    CompletedSnoc(s.log, Entry(Some(user), amount, VendorPayout, reference, status));
  }

  lemma StepCompleted(s: State, q: Request)
    requires Possible(s, q)
    ensures CompletedSum(Step(s, q).log) == CompletedSum(s.log) + Debited(s, q)
  {
    hide CompletedSum;
    match q
    case FundingRequest(_, _, _, _) =>
    case MonnifyComplete(_, _, _, _) =>
    case FlutterwaveHook(reference, verified, found) =>
      if FlutterwaveFunds(s, reference, verified, found) {
        var r := s.rows[found.value];
        CompletedTwo(s.log, Entry(None, r.amount, CentralDebit, "CENTRAL-" + reference, Success),
                     Entry(r.target, r.amount, UserCredit, "USER-" + reference, Success));
      }
    case PaystackHook(reference, verified, amount, found) =>
      if PaystackFunds(s, reference, verified, found) {
        CompletedSnoc(s.log, Entry(s.rows[found.value].target, amount, Funding, reference, Success));
      }
    case Payout(user, amount, reference, accepts) =>
      if !Logged(s.log, reference) { PayoutCompleted(s, user, amount, reference, accepts); }
  }

  /** The completed payouts of a run add up to what was debited. */
  lemma {:induction false} RunCompleted(s: State, qs: seq<Request>)
    requires Feasible(s, qs)
    ensures CompletedSum(Run(s, qs).log) == CompletedSum(s.log) + RunDebited(s, qs)
    decreases |qs|
  {
    if qs != [] {
      StepCompleted(s, qs[0]);
      RunCompleted(Step(s, qs[0]), qs[1..]);
    }
  }

  /** A new payout that some provider accepts comes when the wallet is there and holds the amount. */
  predicate WalletCovers(s: State, q: Request) {
    q.Payout? && !Logged(s.log, q.reference) && Accepted(q.accepts) ==> CanDebit(s.wallets, q.user, q.amount)
  }

  /** The wallet covers each payout of a run at its turn. */
  ghost predicate Covered(s: State, qs: seq<Request>)
    requires Feasible(s, qs)
    decreases |qs|
  {
    qs == [] || (WalletCovers(s, qs[0]) && Covered(Step(s, qs[0]), qs[1..]))
  }

  /** A payout is paid but not debited exactly when the wallet is missing or too low at that moment: nothing checks
      the wallet before the providers are asked. */
  lemma PaidButNotDebited(s: State, q: Request)
    requires q.Payout? && q.amount > 0
    ensures PaidOut(s, q) == Debited(s, q) <==>
            Logged(s.log, q.reference) || !Accepted(q.accepts) || CanDebit(s.wallets, q.user, q.amount)
    ensures PaidOut(s, q) == Debited(s, q) <==> WalletCovers(s, q)
    ensures Debited(s, q) <= PaidOut(s, q)
  {
  }

  lemma {:induction false} DebitedAtMostPaid(s: State, qs: seq<Request>)
    requires Feasible(s, qs) && forall i :: 0 <= i < |qs| && qs[i].Payout? ==> qs[i].amount > 0
    ensures RunDebited(s, qs) <= RunPaidOut(s, qs)
    decreases |qs|
  {
    if qs != [] {
      DebitedAtMostPaid(Step(s, qs[0]), qs[1..]);
    }
  }

  /** Over a run of positive payouts, wallets paid for everything the vendors received exactly when each payout was
      covered at its turn. */
  lemma {:induction false} PayoutsBalanceIff(s: State, qs: seq<Request>)
    requires Feasible(s, qs) && forall i :: 0 <= i < |qs| && qs[i].Payout? ==> qs[i].amount > 0
    ensures RunPaidOut(s, qs) == RunDebited(s, qs) <==> Covered(s, qs)
    decreases |qs|
  {
    if qs != [] {
      if qs[0].Payout? { PaidButNotDebited(s, qs[0]); }
      PayoutsBalanceIff(Step(s, qs[0]), qs[1..]);
      DebitedAtMostPaid(Step(s, qs[0]), qs[1..]);
    }
  }

  /** A payout can be paid by a provider and never debited. */
  lemma UncoveredPayout()
    ensures var s, q := State(map[], map[7 := 10], [], []), Payout(7, 50, "TRX-1", [true, false, false]);
            && Possible(s, q) && PaidOut(s, q) == 50 && Debited(s, q) == 0
            && Step(s, q).wallets == s.wallets
  {
    assert FirstAccepting([true, false, false]) == 0;
  }

  // ----- The requests of a run

  /** What a request adds to the money held. */
  function Received(s: State, q: Request): int {
    match q
    case FundingRequest(_, _, _, _) => 0
    case MonnifyComplete(txRef, amount, paid, _) => if paid && !Known(s.rows, txRef) then amount else 0
    case FlutterwaveHook(_, _, _) => 0
    case PaystackHook(reference, verified, amount, found) =>
      if PaystackFunds(s, reference, verified, found) then amount else 0
    case Payout(_, _, _, _) => -Debited(s, q)
  }

  ghost function RunReceived(s: State, qs: seq<Request>): int
    requires Feasible(s, qs)
    decreases |qs|
  {
    if qs == [] then 0 else Received(s, qs[0]) + RunReceived(Step(s, qs[0]), qs[1..])
  }

  lemma StepReceives(s: State, q: Request)
    requires Possible(s, q)
    ensures Total(Step(s, q)) == Total(s) + Received(s, q)
  {
    match q
    case FundingRequest(_, _, _, _) =>
    case MonnifyComplete(txRef, amount, paid, matched) =>
      if paid && !Known(s.rows, txRef) { MonnifyTotals(s, txRef, amount, matched); }
    case FlutterwaveHook(reference, verified, found) =>
      if FlutterwaveFunds(s, reference, verified, found) {
        FlutterwaveTotals(s, reference, verified, found.value);
      }
    case PaystackHook(reference, verified, amount, found) =>
      if PaystackFunds(s, reference, verified, found) { PaystackTotals(s, reference, amount, found.value); }
    case Payout(user, amount, reference, accepts) =>
      if !Logged(s.log, reference) && Accepted(accepts) && CanDebit(s.wallets, user, amount) {
        SumMapUpdate(s.wallets, user, s.wallets[user] - amount);
      }
  }

  /** How many requests of a run brought money in under a reference: through Monnify, or through Paystack. */
  ghost function TimesReceived(s: State, qs: seq<Request>, reference: Option<string>, monnify: bool): nat
    requires Feasible(s, qs)
    decreases |qs|
  {
    if qs == [] then 0
    else (if BringsIn(s, qs[0], reference, monnify) then 1 else 0)
         + TimesReceived(Step(s, qs[0]), qs[1..], reference, monnify)
  }

  predicate BringsIn(s: State, q: Request, reference: Option<string>, monnify: bool) {
    match q
    case MonnifyComplete(txRef, _, paid, _) =>
      monnify && paid && txRef == reference && !Known(s.rows, txRef)
    case PaystackHook(r, verified, _, found) =>
      !monnify && reference == Some(r) && PaystackFunds(s, r, verified, found)
    case _ => false
  }

  /** The reference has been used up: for Monnify some row has it, be it of a payment received or of a funding only
      started; for Paystack the log has it. */
  predicate Used(s: State, reference: Option<string>, monnify: bool) {
    if monnify then Known(s.rows, reference) else reference.Some? && Logged(s.log, reference.value)
  }

  lemma StepUses(s: State, q: Request, reference: Option<string>, monnify: bool)
    requires Possible(s, q)
    ensures Used(s, reference, monnify) ==> Used(Step(s, q), reference, monnify)
    ensures BringsIn(s, q, reference, monnify) ==>
              !Used(s, reference, monnify) && Used(Step(s, q), reference, monnify)
  {
    var t := Step(s, q);
    if monnify && Known(s.rows, reference) {
      var i :| 0 <= i < |s.rows| && s.rows[i].provider == MONNIFY && s.rows[i].ref == reference;
      assert t.rows[i].provider == MONNIFY && t.rows[i].ref == reference;
    } else if !monnify && Used(s, reference, monnify) {
      var i :| 0 <= i < |s.log| && s.log[i].reference == reference.value;
      assert t.log[i].reference == reference.value;
    } else if BringsIn(s, q, reference, monnify) {
      if monnify {
        assert t.rows[|s.rows|].provider == MONNIFY && t.rows[|s.rows|].ref == reference;
      } else {
        assert t.log[|s.log|].reference == reference.value;
      }
    }
  }

  lemma {:induction false} ReceivedOnce(s: State, qs: seq<Request>, reference: Option<string>, monnify: bool)
    requires Feasible(s, qs)
    ensures TimesReceived(s, qs, reference, monnify) <= if Used(s, reference, monnify) then 0 else 1
    decreases |qs|
  {
    if qs != [] {
      StepUses(s, qs[0], reference, monnify);
      ReceivedOnce(Step(s, qs[0]), qs[1..], reference, monnify);
    }
  }

  /** Over any run, the money held changes by the accepted amounts less the debits, and no reference, however often
      it is delivered, brings money in more than once. */
  lemma {:induction false} RunReceives(s: State, qs: seq<Request>)
    requires Feasible(s, qs)
    ensures Total(Run(s, qs)) == Total(s) + RunReceived(s, qs)
    ensures forall r: Option<string>, monnify: bool :: TimesReceived(s, qs, r, monnify) <= 1
    decreases |qs|
  {
    forall r: Option<string>, monnify: bool
      ensures TimesReceived(s, qs, r, monnify) <= 1
    {
      ReceivedOnce(s, qs, r, monnify);
    }
    if qs != [] {
      StepReceives(s, qs[0]);
      RunReceives(Step(s, qs[0]), qs[1..]);
    }
  }

  // ----- Payments that are dropped

  /** A Monnify payment was received under the reference. */
  predicate ReceivedUnder(rows: seq<Row>, txRef: Option<string>) {
    exists i :: 0 <= i < |rows| && rows[i].provider == MONNIFY && rows[i].ref == txRef && Incoming(rows[i])
  }

  /** A funding through Monnify was started under the reference. */
  predicate StartedUnder(rows: seq<Row>, txRef: Option<string>) {
    exists i :: 0 <= i < |rows| && rows[i].provider == MONNIFY && rows[i].ref == txRef && !Incoming(rows[i])
  }

  lemma KnownIff(rows: seq<Row>, txRef: Option<string>)
    ensures Known(rows, txRef) <==> ReceivedUnder(rows, txRef) || StartedUnder(rows, txRef)
  {
    if Known(rows, txRef) {
      var i :| 0 <= i < |rows| && rows[i].provider == MONNIFY && rows[i].ref == txRef;
      if Incoming(rows[i]) { assert ReceivedUnder(rows, txRef); } else { assert StartedUnder(rows, txRef); }
    }
  }

  /** The notification of a payment that was not received before is dropped exactly when a funding through Monnify was
      started under its reference: its row is taken for the payment. */
  lemma DroppedIff(s: State, txRef: Option<string>, amount: int, matched: Option<nat>)
    requires !ReceivedUnder(s.rows, txRef)
    ensures Step(s, MonnifyComplete(txRef, amount, true, matched)) == s <==> StartedUnder(s.rows, txRef)
  {
    KnownIff(s.rows, txRef);
    if !Known(s.rows, txRef) {
      var t := StepMonnify(s, txRef, amount, matched);
      assert |t.rows| > |s.rows|;
    }
  }

  /** The run starts a funding through Monnify under the reference. */
  predicate Starts(q: Request, txRef: Option<string>) {
    q.FundingRequest? && q.provider == MONNIFY && Some(q.reference) == txRef
  }

  lemma StartedAppend(rows: seq<Row>, more: seq<Row>, txRef: Option<string>)
    ensures StartedUnder(rows + more, txRef) <==> StartedUnder(rows, txRef) || StartedUnder(more, txRef)
  {
    var all := rows + more;
    if StartedUnder(all, txRef) {
      var i :| 0 <= i < |all| && all[i].provider == MONNIFY && all[i].ref == txRef && !Incoming(all[i]);
      assert if i < |rows| then all[i] == rows[i] else all[i] == more[i - |rows|];
    }
    if StartedUnder(rows, txRef) {
      var i :| 0 <= i < |rows| && rows[i].provider == MONNIFY && rows[i].ref == txRef && !Incoming(rows[i]);
      assert all[i] == rows[i];
    }
    if StartedUnder(more, txRef) {
      var i :| 0 <= i < |more| && more[i].provider == MONNIFY && more[i].ref == txRef && !Incoming(more[i]);
      assert all[|rows| + i] == more[i];
    }
  }

  lemma StartedProcess(rows: seq<Row>, k: nat, txRef: Option<string>)
    requires k < |rows|
    ensures StartedUnder(rows[k := rows[k].(processed := true)], txRef) <==> StartedUnder(rows, txRef)
  {
    var rows' := rows[k := rows[k].(processed := true)];
    if StartedUnder(rows, txRef) {
      var i :| 0 <= i < |rows| && rows[i].provider == MONNIFY && rows[i].ref == txRef && !Incoming(rows[i]);
      assert rows'[i].provider == MONNIFY && rows'[i].ref == txRef && !Incoming(rows'[i]);
    }
    if StartedUnder(rows', txRef) {
      var i :| 0 <= i < |rows'| && rows'[i].provider == MONNIFY && rows'[i].ref == txRef && !Incoming(rows'[i]);
      assert rows[i].provider == MONNIFY && rows[i].ref == txRef && !Incoming(rows[i]);
    }
  }

  lemma StepStarted(s: State, q: Request, txRef: Option<string>)
    requires Possible(s, q)
    ensures StartedUnder(Step(s, q).rows, txRef) <==> StartedUnder(s.rows, txRef) || Starts(q, txRef)
  {
    hide StartedUnder;
    match q
    case FundingRequest(provider, reference, amount, user) =>
      StartedAppend(s.rows, [FundingRow(provider, reference, amount, user)], txRef);
      StartedOne(FundingRow(provider, reference, amount, user), txRef);
    case MonnifyComplete(r, amount, paid, matched) =>
      if paid && !Known(s.rows, r) {
        match matched
        case None =>
          StartedAppend(s.rows, [IncomingRow(r, amount, false)], txRef);
          StartedOne(IncomingRow(r, amount, false), txRef);
        case Some(user) =>
          var a, b := IncomingRow(r, amount, true), DistributeRow(r, amount, user);
          StartedAppend(s.rows, [a, b], txRef);
          StartedAppend([a], [b], txRef);
          StartedOne(a, txRef);
          StartedOne(b, txRef);
          assert [a] + [b] == [a, b];
      }
    case FlutterwaveHook(reference, verified, found) =>
      if FlutterwaveFunds(s, reference, verified, found) { StartedProcess(s.rows, found.value, txRef); }
    case PaystackHook(reference, verified, amount, found) =>
      if PaystackFunds(s, reference, verified, found) { StartedProcess(s.rows, found.value, txRef); }
    case Payout(_, _, _, _) =>
  }

  lemma StartedOne(r: Row, txRef: Option<string>)
    ensures StartedUnder([r], txRef) <==> r.provider == MONNIFY && r.ref == txRef && !Incoming(r)
  {
    assert [r][0] == r;
  }

  /** Over a run, fundings are started under a reference exactly by the requests for it. */
  lemma {:induction false} RunStartedIff(s: State, qs: seq<Request>, txRef: Option<string>)
    requires Feasible(s, qs)
    ensures StartedUnder(Run(s, qs).rows, txRef) <==>
            StartedUnder(s.rows, txRef) || exists i :: 0 <= i < |qs| && Starts(qs[i], txRef)
    decreases |qs|
  {
    if qs != [] {
      var rest := qs[1..];
      StepStarted(s, qs[0], txRef);
      RunStartedIff(Step(s, qs[0]), rest, txRef);
      if i :| 0 <= i < |qs| && Starts(qs[i], txRef) {
        assert i == 0 || Starts(rest[i - 1], txRef);
      }
      if i :| 0 <= i < |rest| && Starts(rest[i], txRef) {
        assert Starts(qs[i + 1], txRef);
      }
    }
  }

  /** After a run from an empty database, a paid notification that was not received before is dropped if and only if
      the run started a funding through Monnify under its reference. */
  lemma DroppedAfterRunIff(s: State, qs: seq<Request>, txRef: Option<string>, amount: int, matched: Option<nat>)
    requires s.rows == [] && Feasible(s, qs) && !ReceivedUnder(Run(s, qs).rows, txRef)
    ensures Step(Run(s, qs), MonnifyComplete(txRef, amount, true, matched)) == Run(s, qs) <==>
            exists i :: 0 <= i < |qs| && Starts(qs[i], txRef)
  {
    DroppedIff(Run(s, qs), txRef, amount, matched);
    RunStartedIff(s, qs, txRef);
  }

  // ----- The request handlers

  class Database {
    var centrals: map<string, int>
    var wallets: map<nat, int>
    var rows: seq<Row>
    var log: seq<Entry>

    function View(): State
      reads this
    {
      State(centrals, wallets, rows, log)
    }

    /** Starts a funding: checks that all fields are there, looks the user up, asks the provider for a payment, and
        records it as not processed. */
    method LoadWallet(complete: bool, user: Option<nat>, provider: string, payment: Option<string>, amount: int)
      returns (code: nat)
      modifies this
      ensures code == if !complete then 400 else if user.None? then 404 else if payment.None? then 500 else 201
      ensures View() == if code == 201
                        then Step(old(View()), FundingRequest(provider, payment.value, amount, user.value))
                        else old(View())
    {
      if !complete { return 400; }
      if user.None? { return 404; }
      if payment.None? { return 500; }
      rows := rows + [Row(provider, payment, amount, In, None, user, None, false)];
      return 201;
    }

    /** Saves the payment as not processed and adds it to the central account, created if need be. */
    method ReceiveIntoCentral(txRef: Option<string>, amount: int)
      modifies this
      ensures View() == StepMonnify(old(View()), txRef, amount, None)
    {
      if MONNIFY !in centrals {
        centrals := centrals[MONNIFY := 0];
      }
      rows := rows + [IncomingRow(txRef, amount, false)];
      centrals := centrals[MONNIFY := centrals[MONNIFY] + amount];
    }

    /** Credits the user's wallet, created if need be, records the distribution, marks the payment as processed and
        takes its amount out of the central account again. */
    method Distribute(txRef: Option<string>, amount: int, user: nat)
      requires rows != [] && rows[|rows| - 1] == IncomingRow(txRef, amount, false) && MONNIFY in centrals
      modifies this
      ensures wallets == old(wallets)[user := Get(old(wallets), user) + amount] && log == old(log)
      ensures rows == old(rows)[..|old(rows)| - 1]
                      + [IncomingRow(txRef, amount, true), DistributeRow(txRef, amount, user)]
      ensures centrals == old(centrals)[MONNIFY := old(centrals)[MONNIFY] - amount]
    {
      var incoming := |rows| - 1;
      if user !in wallets {
        wallets := wallets[user := 0];
      }
      wallets := wallets[user := wallets[user] + amount];
      rows := rows + [DistributeRow(txRef, amount, user)];
      rows := rows[incoming := rows[incoming].(processed := true)];
      centrals := centrals[MONNIFY := centrals[MONNIFY] - amount];
    }

    method MonnifyPaymentComplete(txRef: Option<string>, amount: int, paid: bool, matched: Option<nat>)
      modifies this
      ensures View() == Step(old(View()), MonnifyComplete(txRef, amount, paid, matched))
    {
      if !paid { return; }
      if Known(rows, txRef) { return; }
      ReceiveIntoCentral(txRef, amount);
      if matched.None? { return; }
      Distribute(txRef, amount, matched.value);
      assert centrals == old(centrals)[MONNIFY := Get(old(centrals), MONNIFY)];
    }

    method FlutterwaveWebhook(reference: string, verified: bool, found: Option<nat>) returns (code: nat)
      requires Answers(rows, reference, found)
      modifies this
      ensures View() == Step(old(View()), FlutterwaveHook(reference, verified, found))
      ensures code == old(if reference == "" || !verified then 400
                          else if found == None then 404
                          else if rows[found.value].processed then 200
                          else if "moniepoint" !in centrals then 500
                          else if rows[found.value].target.None? || rows[found.value].target.value !in wallets then 404
                          else if centrals["moniepoint"] < rows[found.value].amount then 400
                          else if !Free(log, "CENTRAL-" + reference) || !Free(log, "USER-" + reference) then 500
                          else 200)
    {
      if reference == "" || !verified { return 400; }
      if found.None? { return 404; }
      var txn := rows[found.value];
      if txn.processed { return 200; }
      if MONIEPOINT !in centrals { return 500; }
      if txn.target.None? || txn.target.value !in wallets { return 404; }
      var user, amount := txn.target.value, txn.amount;
      if centrals[MONIEPOINT] < amount { return 400; }
      var saved := View();
      centrals := centrals[MONIEPOINT := centrals[MONIEPOINT] - amount];
      wallets := wallets[user := wallets[user] + amount];
      rows := rows[found.value := txn.(processed := true)];
      var debit := Entry(None, amount, CentralDebit, "CENTRAL-" + reference, Success);
      var credit := Entry(Some(user), amount, UserCredit, "USER-" + reference, Success);
      if Logged(log, debit.reference) || Logged(log, credit.reference) {
        centrals, wallets, rows := saved.centrals, saved.wallets, saved.rows;
        return 500;
      }
      log := log + [debit, credit];
      return 200;
    }

    method PaymentWebhook(reference: string, verified: bool, amount: int, found: Option<nat>) returns (code: nat)
      requires Answers(rows, reference, found)
      modifies this
      ensures View() == Step(old(View()), PaystackHook(reference, verified, amount, found))
      ensures code == old(if reference == "" || !verified then 400
                          else if found == None then 404
                          else if rows[found.value].processed then 200
                          else if rows[found.value].target.None? || rows[found.value].target.value !in wallets then 404
                          else if !Free(log, reference) then 500
                          else 200)
    {
      if reference == "" || !verified { return 400; }
      if found.None? { return 404; }
      var txn := rows[found.value];
      if txn.processed { return 200; }
      if txn.target.None? || txn.target.value !in wallets { return 404; }
      var user := txn.target.value;
      var saved := View();
      wallets := wallets[user := wallets[user] + amount];
      rows := rows[found.value := txn.(processed := true)];
      if Logged(log, reference) {
        wallets, rows := saved.wallets, saved.rows;
        return 500;
      }
      log := log + [Entry(Some(user), amount, Funding, reference, Success)];
      return 200;
    }

    /** Takes the amount from the wallet if it is there. */
    method DebitFromDb(user: nat, amount: int) returns (ok: bool)
      modifies this`wallets
      ensures ok == CanDebit(old(wallets), user, amount)
      ensures wallets == if ok then old(wallets)[user := old(wallets)[user] - amount] else old(wallets)
    {
      if user !in wallets { return false; }
      if wallets[user] < amount { return false; }
      wallets := wallets[user := wallets[user] - amount];
      return true;
    }

    /** Tries the providers in turn and debits the wallet if one of them accepts. `used` is that provider; without a
        vendor nothing is done and there is no status. */
    method ProcessVendorPayout(vendorFound: bool, user: nat, amount: int, reference: string, accepts: seq<bool>)
      returns (status: Option<Status>, used: Option<nat>)
      requires |accepts| == 3 && !Logged(log, reference)
      modifies this
      ensures View() == if vendorFound then Step(old(View()), Payout(user, amount, reference, accepts)) else old(View())
      ensures status.Some? <==> vendorFound
      ensures used.Some? <==> vendorFound && Accepted(accepts)
      ensures used.Some? ==> used.value < 3 && accepts[used.value] && forall k :: 0 <= k < used.value ==> !accepts[k]
      ensures status == Some(Completed) <==> used.Some? && CanDebit(old(wallets), user, amount)
      ensures vendorFound ==> log == old(log) + [Entry(Some(user), amount, VendorPayout, reference, status.value)]
    {
      if !vendorFound { return None, None; }
      used := None;
      for provider := 0 to 3
        invariant used == None && forall k :: 0 <= k < provider ==> !accepts[k]
      {
        if accepts[provider] {
          used := Some(provider);
          break;
        }
      }
      FirstAcceptingIs(accepts, used);
      var outcome := Failed;
      if used.Some? {
        var ok := DebitFromDb(user, amount);
        outcome := if ok then Completed else Failed;
      }
      log := log + [Entry(Some(user), amount, VendorPayout, reference, outcome)];
      status := Some(outcome);
    }
  }

  lemma FirstAcceptingIs(accepts: seq<bool>, used: Option<nat>)
    requires used.Some? ==> used.value < |accepts| && accepts[used.value]
    requires forall k :: 0 <= k < (if used.Some? then used.value else |accepts|) ==> !accepts[k]
    ensures FirstAccepting(accepts) == if used.Some? then used.value else |accepts|
  {
  }
}
