/** Concurrent deliveries of the payment webhooks: every interleaving of their steps. A Paystack delivery reads the
    transaction, checks its flag, locks the wallet, credits it, and commits the new balance together with a log entry
    whose reference is unique. A Flutterwave delivery reads and checks likewise, then reads and writes the wallet
    without locking it, and logs under references of its own. */
module FundingRace {

  datatype Hook = Paystack | Flutterwave

  /** What one delivery is about: a payment's reference, the transaction row found for it, and whom it funds. */
  datatype Job = Job(hook: Hook, reference: string, row: nat, user: nat, amount: int)

  /** How far a delivery has got. `processed` is the flag as read; `balance` the wallet object in memory. */
  datatype Worker =
    | Arrived(job: Job)
    | Read(job: Job, processed: bool)
    | Checked(job: Job)
    | Locked(job: Job, balance: int)
    | Credited(job: Job, balance: int)
    | Peeked(job: Job, balance: int)
    | Finished

  /** An entry of the transaction log: a wallet funded for a row, or the central account debited for that. */
  datatype Entry = Funded(hook: Hook, reference: string, row: nat, user: nat, amount: int)
                 | CentralDebit(reference: string)

  datatype Debited = Debited(user: nat, amount: int)

  /** The database and the deliveries under way. `rows` gives each transaction's payment reference; `locks` says which
      delivery holds a wallet's row lock. */
  datatype State = State(rows: map<nat, string>, wallets: map<nat, int>, processed: set<nat>, log: seq<Entry>,
                         debits: seq<Debited>, locks: map<nat, nat>, workers: map<nat, Worker>)

  datatype Action =
    | Deliver(id: nat, job: Job)
    | ReadTransaction(id: nat)
    | CheckFlag(id: nat)
    | LockWallet(id: nat)
    | Credit(id: nat)
    | Commit(id: nat)
    | Abort(id: nat)
    | UnlockedRead(id: nat)
    | UnlockedWrite(id: nat)
    | Payout(user: nat, amount: int)

  predicate Holds(w: Worker) {
    w.Locked? || w.Credited?
  }

  predicate IsLogged(log: seq<Entry>, reference: string) {
    exists i :: 0 <= i < |log| && log[i].reference == reference
  }

  /** The reference under which a webhook logs that it funded a payment. */
  function FundingReference(hook: Hook, reference: string): string {
    if hook == Paystack then reference else "USER-" + reference
  }

  function CentralReference(reference: string): string {
    "CENTRAL-" + reference
  }

  function FundedBy(job: Job): Entry {
    Funded(job.hook, FundingReference(job.hook, job.reference), job.row, job.user, job.amount)
  }

  /** What a delivery logs when it commits. */
  function LogOf(job: Job): seq<Entry> {
    (if job.hook == Flutterwave then [CentralDebit(CentralReference(job.reference))] else []) + [FundedBy(job)]
  }

  /** None of the references a delivery logs is in the log. */
  predicate ReferencesFree(log: seq<Entry>, job: Job) {
    && !IsLogged(log, FundingReference(job.hook, job.reference))
    && (job.hook == Flutterwave ==> !IsLogged(log, CentralReference(job.reference)))
  }

  /** The delivery is about a transaction that has its payment's reference. */
  predicate Found(s: State, job: Job) {
    job.row in s.rows && s.rows[job.row] == job.reference
  }

  function Unlock(s: State, id: nat, user: nat): State {
    s.(locks := if user in s.locks && s.locks[user] == id then s.locks - {user} else s.locks)
  }

  function SetWorker(s: State, id: nat, w: Worker): State {
    s.(workers := s.workers[id := w])
  }

  /** An action can take place; a lock that is held blocks everyone else. */
  predicate Enabled(s: State, a: Action) {
    match a
    case Deliver(id, job) => id !in s.workers && Found(s, job)
    case ReadTransaction(id) => id in s.workers && s.workers[id].Arrived?
    case CheckFlag(id) => id in s.workers && s.workers[id].Read?
    case LockWallet(id) =>
      id in s.workers && s.workers[id].Checked? && s.workers[id].job.hook == Paystack
      && s.workers[id].job.user in s.wallets && s.workers[id].job.user !in s.locks
    case Credit(id) => id in s.workers && s.workers[id].Locked?
    case Commit(id) => id in s.workers && s.workers[id].Credited?
    case Abort(id) => id in s.workers && !s.workers[id].Finished?
    case UnlockedRead(id) =>
      id in s.workers && s.workers[id].Checked? && s.workers[id].job.hook == Flutterwave
      && s.workers[id].job.user in s.wallets
    case UnlockedWrite(id) =>
      id in s.workers && s.workers[id].Peeked?
      && s.workers[id].job.user in s.wallets && s.workers[id].job.user !in s.locks
    case Payout(user, amount) => user in s.wallets && user !in s.locks && s.wallets[user] >= amount
  }

  /** The credit of the locked wallet. In memory it changes nothing else; if it commits, the balance is written and
      the lock is gone. */
  function DoCredit(commits: bool, s: State, id: nat): State
    requires Enabled(s, Credit(id))
  {
    var job := s.workers[id].job;
    var balance := s.workers[id].balance + job.amount;
    var t := SetWorker(s, id, Credited(job, balance));
    if commits then Unlock(t.(wallets := s.wallets[job.user := balance]), id, job.user) else t
  }

  /** The final commit: everything or, when the reference is already logged, nothing. */
  function DoCommit(commits: bool, s: State, id: nat): State
    requires Enabled(s, Commit(id))
  {
    var job := s.workers[id].job;
    var t := Unlock(SetWorker(s, id, Finished), id, job.user);
    if !ReferencesFree(s.log, job) then t
    else t.(wallets := if commits then s.wallets else s.wallets[job.user := s.workers[id].balance],
            processed := s.processed + {job.row}, log := s.log + LogOf(job))
  }

  /** The commit of a delivery that took no lock: the balance it read earlier, plus the amount, whatever the balance
      is by now; nothing when one of its references is already logged. */
  function DoWrite(s: State, id: nat): State
    requires Enabled(s, UnlockedWrite(id))
  {
    var job := s.workers[id].job;
    var t := SetWorker(s, id, Finished);
    if !ReferencesFree(s.log, job) then t
    else t.(wallets := s.wallets[job.user := s.workers[id].balance + job.amount],
            processed := s.processed + {job.row}, log := s.log + LogOf(job))
  }

  function DoPayout(s: State, user: nat, amount: int): State
    requires Enabled(s, Payout(user, amount))
  {
    s.(wallets := s.wallets[user := s.wallets[user] - amount], debits := s.debits + [Debited(user, amount)])
  }

  function Next(commits: bool, s: State, a: Action): State
    requires Enabled(s, a)
  {
    match a
    case Deliver(id, job) => SetWorker(s, id, Arrived(job))
    case ReadTransaction(id) =>
      SetWorker(s, id, Read(s.workers[id].job, s.workers[id].job.row in s.processed))
    case CheckFlag(id) =>
      SetWorker(s, id, if s.workers[id].processed then Finished else Checked(s.workers[id].job))
    case LockWallet(id) =>
      var job := s.workers[id].job;
      SetWorker(s, id, Locked(job, s.wallets[job.user])).(locks := s.locks[job.user := id])
    case Credit(id) => DoCredit(commits, s, id)
    case Commit(id) => DoCommit(commits, s, id)
    case Abort(id) =>
      if Holds(s.workers[id]) then Unlock(SetWorker(s, id, Finished), id, s.workers[id].job.user)
      else SetWorker(s, id, Finished)
    case UnlockedRead(id) => SetWorker(s, id, Peeked(s.workers[id].job, s.wallets[s.workers[id].job.user]))
    case UnlockedWrite(id) => DoWrite(s, id)
    case Payout(user, amount) => DoPayout(s, user, amount)
  }

  ghost predicate Schedule(commits: bool, s: State, acts: seq<Action>)
    decreases |acts|
  {
    acts == [] || (Enabled(s, acts[0]) && Schedule(commits, Next(commits, s, acts[0]), acts[1..]))
  }

  ghost function After(commits: bool, s: State, acts: seq<Action>): State
    requires Schedule(commits, s, acts)
    decreases |acts|
  {
    if acts == [] then s else After(commits, Next(commits, s, acts[0]), acts[1..])
  }

  // ----- What the records say about a wallet

  function FundedAmount(e: Entry, user: nat): int {
    if e.Funded? && e.user == user then e.amount else 0
  }

  function FundedSum(log: seq<Entry>, user: nat): int {
    if log == [] then 0 else FundedSum(log[..|log| - 1], user) + FundedAmount(log[|log| - 1], user)
  }

  function DebitedSum(debits: seq<Debited>, user: nat): int {
    if debits == [] then 0
    else DebitedSum(debits[..|debits| - 1], user)
         + if debits[|debits| - 1].user == user then debits[|debits| - 1].amount else 0
  }

  lemma FundedSnoc(log: seq<Entry>, e: Entry, user: nat)
    ensures FundedSum(log + [e], user) == FundedSum(log, user) + FundedAmount(e, user)
  {
    assert (log + [e])[..|log|] == log;
  }

  /** What a commit adds to the sums of the log. */
  lemma FundedCommit(log: seq<Entry>, job: Job, user: nat)
    ensures FundedSum(log + LogOf(job), user) == FundedSum(log, user) + if job.user == user then job.amount else 0
  {
    if job.hook == Flutterwave {
      var debit := CentralDebit(CentralReference(job.reference));
      FundedSnoc(log, debit, user);
      FundedSnoc(log + [debit], FundedBy(job), user);
      assert log + LogOf(job) == (log + [debit]) + [FundedBy(job)];
    } else {
      FundedSnoc(log, FundedBy(job), user);
      assert LogOf(job) == [FundedBy(job)];
    }
  }

  lemma DebitedSnoc(debits: seq<Debited>, d: Debited, user: nat)
    ensures DebitedSum(debits + [d], user) == DebitedSum(debits, user) + if d.user == user then d.amount else 0
  {
    assert (debits + [d])[..|debits|] == debits;
  }

  /** Each wallet holds its opening balance, plus every logged funding, less every payout. */
  predicate Balanced(opening: map<nat, int>, s: State) {
    && s.wallets.Keys == opening.Keys
    && forall u <- opening :: s.wallets[u] == opening[u] + FundedSum(s.log, u) - DebitedSum(s.debits, u)
  }

  /** Who holds a lock has seen the balance as it is; nobody else is between lock and commit. */
  predicate LocksRespected(s: State) {
    && (forall id <- s.workers :: Holds(s.workers[id]) ==>
          var user := s.workers[id].job.user;
          && user in s.locks && s.locks[user] == id && user in s.wallets
          && s.workers[id].balance
             == s.wallets[user] + if s.workers[id].Credited? then s.workers[id].job.amount else 0)
    && (forall u <- s.locks ::
          s.locks[u] in s.workers && Holds(s.workers[s.locks[u]]) && s.workers[s.locks[u]].job.user == u)
  }

  predicate Invariant(opening: map<nat, int>, s: State) {
    Balanced(opening, s) && LocksRespected(s)
  }

  /** The action writes a wallet whose balance is no longer the one that was read. */
  predicate Stale(s: State, a: Action)
    requires Enabled(s, a)
  {
    match a
    case UnlockedWrite(id) =>
      var w := s.workers[id];
      ReferencesFree(s.log, w.job) && s.wallets[w.job.user] != w.balance
    case _ => false
  }

  ghost predicate NoStaleWrite(commits: bool, s: State, acts: seq<Action>)
    requires Schedule(commits, s, acts)
    decreases |acts|
  {
    acts == [] || (!Stale(s, acts[0]) && NoStaleWrite(commits, Next(commits, s, acts[0]), acts[1..]))
  }

  lemma LocksAfterRelease(s: State, id: nat)
    requires LocksRespected(s) && id in s.workers && Holds(s.workers[id])
    ensures LocksRespected(Unlock(SetWorker(s, id, Finished), id, s.workers[id].job.user))
  {
  }

  lemma CommitBalances(opening: map<nat, int>, s: State, id: nat)
    requires Balanced(opening, s) && LocksRespected(s) && Enabled(s, Commit(id))
    ensures Balanced(opening, DoCommit(false, s, id))
  {
    hide FundedSum, DebitedSum;
    var job := s.workers[id].job;
    var t := DoCommit(false, s, id);
    if ReferencesFree(s.log, job) {
      forall u <- opening
        ensures t.wallets[u] == opening[u] + FundedSum(t.log, u) - DebitedSum(t.debits, u)
      {
        FundedCommit(s.log, job, u);
      }
    }
  }

  lemma CommitRespectsLocks(s: State, id: nat)
    requires LocksRespected(s) && Enabled(s, Commit(id))
    ensures LocksRespected(DoCommit(false, s, id))
  {
    LocksAfterRelease(s, id);
  }

  lemma CommitKeeps(opening: map<nat, int>, s: State, id: nat)
    requires Invariant(opening, s) && Enabled(s, Commit(id))
    ensures Invariant(opening, DoCommit(false, s, id))
  {
    hide Balanced, LocksRespected, DoCommit, Enabled;
    CommitBalances(opening, s, id);
    CommitRespectsLocks(s, id);
  }

  lemma PayoutBalances(opening: map<nat, int>, s: State, user: nat, amount: int)
    requires Balanced(opening, s) && Enabled(s, Payout(user, amount))
    ensures Balanced(opening, DoPayout(s, user, amount))
  {
    hide FundedSum, DebitedSum;
    var t := DoPayout(s, user, amount);
    assert t.wallets.Keys == opening.Keys;
    forall u <- opening
      ensures t.wallets[u] == opening[u] + FundedSum(t.log, u) - DebitedSum(t.debits, u)
    {
      DebitedSnoc(s.debits, Debited(user, amount), u);
    }
  }

  /** A payout changes no wallet that a delivery has locked. */
  lemma PayoutRespectsLocks(s: State, user: nat, amount: int)
    requires LocksRespected(s) && Enabled(s, Payout(user, amount))
    ensures LocksRespected(DoPayout(s, user, amount))
  {
    var t := DoPayout(s, user, amount);
    assert t.workers == s.workers && t.locks == s.locks;
    assert forall u <- s.wallets :: u != user ==> t.wallets[u] == s.wallets[u];
  }

  lemma PayoutKeeps(opening: map<nat, int>, s: State, user: nat, amount: int)
    requires Invariant(opening, s) && Enabled(s, Payout(user, amount))
    ensures Invariant(opening, Next(false, s, Payout(user, amount)))
  {
    PayoutBalances(opening, s, user, amount);
    PayoutRespectsLocks(s, user, amount);
  }

  /** An unlocked write leaves the wallets balanced exactly if it is not stale: otherwise what happened to the wallet
      in between is lost. */
  lemma WriteBalancesIff(opening: map<nat, int>, s: State, id: nat)
    requires Balanced(opening, s) && Enabled(s, UnlockedWrite(id))
    ensures Balanced(opening, DoWrite(s, id)) <==> !Stale(s, UnlockedWrite(id))
  {
    var job := s.workers[id].job;
    var t := DoWrite(s, id);
    if ReferencesFree(s.log, job) {
      forall u <- opening
        ensures FundedSum(t.log, u) == FundedSum(s.log, u) + if u == job.user then job.amount else 0
      {
        FundedCommit(s.log, job, u);
      }
      assert t.wallets[job.user] == s.workers[id].balance + job.amount;
    }
  }

  lemma WriteRespectsLocks(s: State, id: nat)
    requires LocksRespected(s) && Enabled(s, UnlockedWrite(id))
    ensures LocksRespected(DoWrite(s, id))
  {
    var t := DoWrite(s, id);
    assert forall u <- s.wallets :: u != s.workers[id].job.user ==> t.wallets[u] == s.wallets[u];
  }

  /** The steps of a delivery that write no wallet. */
  predicate OwnStep(a: Action) {
    a.Deliver? || a.ReadTransaction? || a.CheckFlag? || a.LockWallet? || a.Credit? || a.UnlockedRead?
  }

  /** A worker that holds no lock, before and after, changes nothing for the locks. */
  lemma LocklessStep(s: State, id: nat, w: Worker)
    requires LocksRespected(s) && !Holds(w) && (id in s.workers ==> !Holds(s.workers[id]))
    ensures LocksRespected(SetWorker(s, id, w))
  {
  }

  lemma LockRespectsLocks(s: State, id: nat)
    requires LocksRespected(s) && Enabled(s, LockWallet(id))
    ensures LocksRespected(Next(false, s, LockWallet(id)))
  {
  }

  lemma CreditRespectsLocks(s: State, id: nat)
    requires LocksRespected(s) && Enabled(s, Credit(id))
    ensures LocksRespected(Next(false, s, Credit(id)))
  {
  }

  lemma OwnStepRespectsLocks(s: State, a: Action)
    requires LocksRespected(s) && Enabled(s, a) && OwnStep(a)
    ensures LocksRespected(Next(false, s, a))
  {
    hide LocksRespected;
    if a.LockWallet? {
      LockRespectsLocks(s, a.id);
    } else if a.Credit? {
      CreditRespectsLocks(s, a.id);
    } else {
      LocklessStep(s, a.id, Next(false, s, a).workers[a.id]);
    }
  }

  lemma NextKeeps(opening: map<nat, int>, s: State, a: Action)
    requires Invariant(opening, s) && Enabled(s, a) && !Stale(s, a)
    ensures Invariant(opening, Next(false, s, a))
  {
    hide LocksRespected, FundedSum, DebitedSum;
    if OwnStep(a) {
      OwnStepRespectsLocks(s, a);
    } else {
      match a
      case Commit(id) => CommitKeeps(opening, s, id);
      case Abort(id) => AbortRespectsLocks(s, id);
      case UnlockedWrite(id) =>
        WriteBalancesIff(opening, s, id);
        WriteRespectsLocks(s, id);
      case Payout(user, amount) => PayoutKeeps(opening, s, user, amount);
    }
  }

  lemma AbortRespectsLocks(s: State, id: nat)
    requires LocksRespected(s) && Enabled(s, Abort(id))
    ensures LocksRespected(Next(false, s, Abort(id)))
  {
    if Holds(s.workers[id]) { LocksAfterRelease(s, id); }
  }

  /** The initial state: some wallets, nothing funded, no delivery under way. */
  predicate Initial(s: State) {
    s.log == [] && s.debits == [] && s.locks == map[] && s.workers == map[]
  }

  lemma {:induction false} RunKeeps(opening: map<nat, int>, s: State, acts: seq<Action>)
    requires Invariant(opening, s) && Schedule(false, s, acts) && NoStaleWrite(false, s, acts)
    ensures Invariant(opening, After(false, s, acts))
    decreases |acts|
  {
    if acts != [] {
      NextKeeps(opening, s, acts[0]);
      RunKeeps(opening, Next(false, s, acts[0]), acts[1..]);
    }
  }

  /** The wallets are balanced after every step. */
  ghost predicate BalancedThroughout(opening: map<nat, int>, s: State, acts: seq<Action>)
    requires Schedule(false, s, acts)
    decreases |acts|
  {
    Balanced(opening, s) && (acts == [] || BalancedThroughout(opening, Next(false, s, acts[0]), acts[1..]))
  }

  /** So the wallets stay balanced throughout a schedule if and only if no write in it is stale. */
  lemma {:induction false} BalancedIffNoStaleWrite(opening: map<nat, int>, s: State, acts: seq<Action>)
    requires Invariant(opening, s) && Schedule(false, s, acts)
    ensures BalancedThroughout(opening, s, acts) <==> NoStaleWrite(false, s, acts)
    decreases |acts|
  {
    if acts != [] {
      if Stale(s, acts[0]) {
        WriteBalancesIff(opening, s, acts[0].id);
      } else {
        NextKeeps(opening, s, acts[0]);
        BalancedIffNoStaleWrite(opening, Next(false, s, acts[0]), acts[1..]);
      }
    }
  }

  lemma OneAction(commits: bool, s: State, a: Action)
    requires Enabled(s, a)
    ensures Schedule(commits, s, [a]) && After(commits, s, [a]) == Next(commits, s, a)
    ensures NoStaleWrite(commits, s, [a]) <==> !Stale(s, a)
  {
    hide Enabled, Next, Stale;
    assert [a][1..] == [];
    assert Schedule(commits, Next(commits, s, a), []);
  }

  /** One schedule after the other. */
  lemma {:induction false} Joined(commits: bool, s: State, a: seq<Action>, b: seq<Action>)
    requires Schedule(commits, s, a) && Schedule(commits, After(commits, s, a), b)
    ensures Schedule(commits, s, a + b) && After(commits, s, a + b) == After(commits, After(commits, s, a), b)
    ensures NoStaleWrite(commits, s, a) && NoStaleWrite(commits, After(commits, s, a), b) ==>
              NoStaleWrite(commits, s, a + b)
    decreases |a|
  {
    hide Enabled, Next, Stale;
    if a == [] {
      assert a + b == b;
    } else {
      assert (a + b)[0] == a[0] && (a + b)[1..] == a[1..] + b;
      Joined(commits, Next(commits, s, a[0]), a[1..], b);
    }
  }

  lemma TwoActions(commits: bool, s: State, a: Action, b: Action)
    requires Enabled(s, a) && Enabled(Next(commits, s, a), b)
    ensures Schedule(commits, s, [a, b]) && After(commits, s, [a, b]) == Next(commits, Next(commits, s, a), b)
    ensures !Stale(s, a) && !Stale(Next(commits, s, a), b) ==> NoStaleWrite(commits, s, [a, b])
  {
    hide Enabled, Next, Stale, Schedule, After, NoStaleWrite;
    assert [a, b] == [a] + [b];
    OneAction(commits, s, a);
    OneAction(commits, Next(commits, s, a), b);
    Joined(commits, s, [a], [b]);
  }

  lemma ThreeActions(commits: bool, s: State, a: Action, b: Action, c: Action)
    requires Enabled(s, a) && Enabled(Next(commits, s, a), b) && Enabled(Next(commits, Next(commits, s, a), b), c)
    ensures Schedule(commits, s, [a, b, c])
    ensures After(commits, s, [a, b, c]) == Next(commits, Next(commits, Next(commits, s, a), b), c)
    ensures !a.UnlockedWrite? && !b.UnlockedWrite? && !c.UnlockedWrite? ==> NoStaleWrite(commits, s, [a, b, c])
  {
    hide Enabled, Next, Schedule, After, NoStaleWrite;
    assert [a, b, c] == [a, b] + [c];
    TwoActions(commits, s, a, b);
    OneAction(commits, Next(commits, Next(commits, s, a), b), c);
    Joined(commits, s, [a, b], [c]);
  }

  /** A payout between the read and the write of an unlocked webhook is lost. */
  lemma PayoutLost(s: State, acts: seq<Action>)
    requires s == Wallet(50).(workers := map[0 := Checked(UNLOCKED_JOB)])
    requires acts == [UnlockedRead(0), Payout(1, 30), UnlockedWrite(0)]
    ensures Schedule(false, s, acts) && After(false, s, acts).wallets == map[1 := 150]
    ensures !NoStaleWrite(false, s, acts)
  {
    hide After;
    var s1 := s.(workers := map[0 := Peeked(UNLOCKED_JOB, 50)]);
    var s2 := s1.(wallets := map[1 := 20], debits := [Debited(1, 30)]);
    assert Next(false, s, acts[0]) == s1 && Next(false, s1, acts[1]) == s2;
    ThreeActions(false, s, acts[0], acts[1], acts[2]);
    TwoActions(false, s1, acts[1], acts[2]);
    OneAction(false, s2, acts[2]);
    assert acts[1..] == [Payout(1, 30), UnlockedWrite(0)] && acts[1..][1..] == [UnlockedWrite(0)];
  }

  // ----- How often a payment is funded

  predicate RowFunded(log: seq<Entry>, row: nat) {
    exists i :: 0 <= i < |log| && log[i].Funded? && log[i].row == row
  }

  /** Each payment is funded at most once. */
  predicate FundedOnce(log: seq<Entry>) {
    forall i, j :: 0 <= i < j < |log| && log[i].Funded? && log[j].Funded? ==> log[i].row != log[j].row
  }

  /** Each payment is funded at most once by each of the two webhooks. */
  predicate FundedOncePerHook(log: seq<Entry>) {
    forall i, j :: 0 <= i < j < |log| && log[i].Funded? && log[j].Funded? && log[i].hook == log[j].hook ==>
      log[i].row != log[j].row
  }

  predicate UniqueReferences(log: seq<Entry>) {
    forall i, j :: 0 <= i < j < |log| ==> log[i].reference != log[j].reference
  }

  /** A funding is for a transaction that is marked, and named after its payment. */
  predicate EntryOk(s: State, e: Entry) {
    e.Funded? ==>
      e.row in s.processed && e.row in s.rows && e.reference == FundingReference(e.hook, s.rows[e.row])
  }

  /** The delivery found the flag unset. */
  predicate Passed(w: Worker) {
    (w.Read? && !w.processed) || w.Checked? || w.Locked? || w.Credited? || w.Peeked?
  }

  /** A delivery is about its payment's transaction; if that is marked after the delivery found it unmarked, somebody
      has funded it meanwhile. */
  predicate WorkerOk(s: State, w: Worker) {
    !w.Finished? ==> Found(s, w.job) && (Passed(w) && w.job.row in s.processed ==> RowFunded(s.log, w.job.row))
  }

  predicate Recorded(s: State) {
    && UniqueReferences(s.log)
    && (forall i :: 0 <= i < |s.log| ==> EntryOk(s, s.log[i]))
    && (forall id <- s.workers :: WorkerOk(s, s.workers[id]))
  }

  /** Two fundings of one payment by one webhook would have the same reference. */
  lemma RecordedOncePerHook(s: State)
    requires Recorded(s)
    ensures FundedOncePerHook(s.log)
  {
    forall i, j | 0 <= i < j < |s.log| && s.log[i].Funded? && s.log[j].Funded? && s.log[i].hook == s.log[j].hook
      ensures s.log[i].row != s.log[j].row
    {
      assert EntryOk(s, s.log[i]) && EntryOk(s, s.log[j]);
    }
  }

  /** The action commits a funding. */
  predicate Funds(s: State, a: Action)
    requires Enabled(s, a)
  {
    (a.Commit? || a.UnlockedWrite?) && ReferencesFree(s.log, s.workers[a.id].job)
  }

  /** The action commits a funding of a payment that is marked by then. */
  predicate FundsAgain(s: State, a: Action)
    requires Enabled(s, a)
  {
    Funds(s, a) && s.workers[a.id].job.row in s.processed
  }

  ghost predicate NeverFundsAgain(commits: bool, s: State, acts: seq<Action>)
    requires Schedule(commits, s, acts)
    decreases |acts|
  {
    acts == [] || (!FundsAgain(s, acts[0]) && NeverFundsAgain(commits, Next(commits, s, acts[0]), acts[1..]))
  }

  /** What an action does to the flags and the log. */
  lemma NextLog(commits: bool, s: State, a: Action)
    requires Enabled(s, a)
    ensures var t := Next(commits, s, a);
            && t.rows == s.rows
            && t.log == (if Funds(s, a) then s.log + LogOf(s.workers[a.id].job) else s.log)
            && t.processed == if Funds(s, a) then s.processed + {s.workers[a.id].job.row} else s.processed
  {
  }

  /** The only worker an action changes is its own; where it was before, and what it finds. */
  lemma NextWorkers(commits: bool, s: State, a: Action, id: nat)
    requires Enabled(s, a) && id in Next(commits, s, a).workers
    ensures var w := Next(commits, s, a).workers[id];
            || (id in s.workers && w == s.workers[id])
            || w.Finished?
            || (a.Deliver? && w == Arrived(a.job) && Found(s, a.job))
            || (id in s.workers && !s.workers[id].Finished? && w.job == s.workers[id].job
                && (Passed(w) ==> Passed(s.workers[id]) || w.job.row !in s.processed))
  {
  }

  lemma RowFundedLater(log: seq<Entry>, more: seq<Entry>, row: nat)
    requires RowFunded(log, row)
    ensures RowFunded(log + more, row)
  {
    var i :| 0 <= i < |log| && log[i].Funded? && log[i].row == row;
    assert (log + more)[i] == log[i];
  }

  lemma RowFundedNow(log: seq<Entry>, job: Job)
    ensures RowFunded(log + LogOf(job), job.row)
  {
    var t := log + LogOf(job);
    assert t[|t| - 1] == FundedBy(job);
  }

  lemma UniqueLater(log: seq<Entry>, job: Job)
    requires UniqueReferences(log) && ReferencesFree(log, job)
    ensures UniqueReferences(log + LogOf(job))
  {
    if job.hook == Flutterwave {
      assert CentralReference(job.reference)[0] != FundingReference(Flutterwave, job.reference)[0];
    }
  }

  lemma NextWorkerOk(commits: bool, s: State, a: Action, id: nat)
    requires Recorded(s) && Enabled(s, a) && id in Next(commits, s, a).workers
    ensures WorkerOk(Next(commits, s, a), Next(commits, s, a).workers[id])
  {
    hide Next, RowFunded;
    var t := Next(commits, s, a);
    var w := t.workers[id];
    NextLog(commits, s, a);
    NextWorkers(commits, s, a, id);
    assert id in s.workers ==> WorkerOk(s, s.workers[id]);
    if !w.Finished? && Passed(w) && w.job.row in t.processed {
      if w.job.row in s.processed {
        assert RowFunded(s.log, w.job.row);
        if Funds(s, a) { RowFundedLater(s.log, LogOf(s.workers[a.id].job), w.job.row); }
      } else {
        RowFundedNow(s.log, s.workers[a.id].job);
      }
    }
  }

  lemma NextRecorded(commits: bool, s: State, a: Action)
    requires Recorded(s) && Enabled(s, a)
    ensures Recorded(Next(commits, s, a))
  {
    hide Next, RowFunded, ReferencesFree;
    var t := Next(commits, s, a);
    NextLog(commits, s, a);
    forall id <- t.workers
      ensures WorkerOk(t, t.workers[id])
    {
      NextWorkerOk(commits, s, a, id);
    }
    if Funds(s, a) {
      var job := s.workers[a.id].job;
      UniqueLater(s.log, job);
      assert WorkerOk(s, s.workers[a.id]);
      forall i | 0 <= i < |t.log|
        ensures EntryOk(t, t.log[i])
      {
        if i < |s.log| { assert EntryOk(s, s.log[i]) && t.log[i] == s.log[i]; }
      }
    } else {
      assert forall i :: 0 <= i < |s.log| ==> (EntryOk(s, s.log[i]) <==> EntryOk(t, s.log[i]));
    }
  }

  lemma FundedOnceStep(log: seq<Entry>, job: Job)
    requires FundedOnce(log)
    ensures FundedOnce(log + LogOf(job)) <==> !RowFunded(log, job.row)
  {
    var t := log + LogOf(job);
    var last := |t| - 1;
    assert t[last] == FundedBy(job);
    assert forall i :: 0 <= i < last ==>
             t[i] == if i < |log| then log[i] else CentralDebit(CentralReference(job.reference));
    if RowFunded(log, job.row) {
      var i :| 0 <= i < |log| && log[i].Funded? && log[i].row == job.row;
      assert t[i] == log[i];
    }
  }

  /** One action funds a payment a second time exactly if it commits for one that is marked by then. */
  lemma NextFundedOnceIff(commits: bool, s: State, a: Action)
    requires Recorded(s) && FundedOnce(s.log) && Enabled(s, a)
    ensures FundedOnce(Next(commits, s, a).log) <==> !FundsAgain(s, a)
  {
    hide Next, ReferencesFree, FundedOnce;
    NextLog(commits, s, a);
    if Funds(s, a) {
      var job := s.workers[a.id].job;
      assert WorkerOk(s, s.workers[a.id]) && Passed(s.workers[a.id]);
      assert RowFunded(s.log, job.row) ==> job.row in s.processed by {
        assert forall i :: 0 <= i < |s.log| ==> EntryOk(s, s.log[i]);
      }
      FundedOnceStep(s.log, job);
    }
  }

  lemma {:induction false} TwiceForEver(commits: bool, s: State, acts: seq<Action>)
    requires Schedule(commits, s, acts) && !FundedOnce(s.log)
    ensures !FundedOnce(After(commits, s, acts).log)
    decreases |acts|
  {
    if acts != [] {
      NextLog(commits, s, acts[0]);
      var t := Next(commits, s, acts[0]);
      var i, j :| 0 <= i < j < |s.log| && s.log[i].Funded? && s.log[j].Funded? && s.log[i].row == s.log[j].row;
      assert t.log[i] == s.log[i] && t.log[j] == s.log[j];
      TwiceForEver(commits, t, acts[1..]);
    }
  }

  lemma {:induction false} RunRecorded(commits: bool, s: State, acts: seq<Action>)
    requires Recorded(s) && Schedule(commits, s, acts)
    ensures Recorded(After(commits, s, acts))
    decreases |acts|
  {
    hide Recorded, Next, Enabled;
    if acts != [] {
      NextRecorded(commits, s, acts[0]);
      RunRecorded(commits, Next(commits, s, acts[0]), acts[1..]);
    }
  }

  /** Over a schedule, each payment is funded at most once if and only if no delivery commits, with its own
      references still free, for a payment that is marked by then. */
  lemma {:induction false} FundedOnceIff(commits: bool, s: State, acts: seq<Action>)
    requires Recorded(s) && FundedOnce(s.log) && Schedule(commits, s, acts)
    ensures FundedOnce(After(commits, s, acts).log) <==> NeverFundsAgain(commits, s, acts)
    decreases |acts|
  {
    hide Recorded, Next, Enabled, FundedOnce, FundsAgain;
    if acts != [] {
      var t := Next(commits, s, acts[0]);
      NextFundedOnceIff(commits, s, acts[0]);
      if FundsAgain(s, acts[0]) {
        TwiceForEver(commits, t, acts[1..]);
      } else {
        NextRecorded(commits, s, acts[0]);
        FundedOnceIff(commits, t, acts[1..]);
      }
    }
  }

  /** Whatever the interleaving: each webhook funds a payment at most once; the two of them together fund it at most
      once exactly if none commits for a payment that the other has marked after the check; and no update is lost
      unless a webhook that took no lock writes a wallet that has changed since it read it. */
  lemma AtMostOnce(s: State, acts: seq<Action>)
    requires Initial(s) && Schedule(false, s, acts)
    ensures var t := After(false, s, acts);
            && FundedOncePerHook(t.log)
            && (FundedOnce(t.log) <==> NeverFundsAgain(false, s, acts))
            && (NoStaleWrite(false, s, acts) ==>
                  forall u <- s.wallets :: u in t.wallets
                    && t.wallets[u] == s.wallets[u] + FundedSum(t.log, u) - DebitedSum(t.debits, u))
  {
    RunRecorded(false, s, acts);
    RecordedOncePerHook(After(false, s, acts));
    FundedOnceIff(false, s, acts);
    if NoStaleWrite(false, s, acts) {
      RunKeeps(s.wallets, s, acts);
    }
  }

  // ----- One webhook alone

  predicate DeliversOnly(hook: Hook, a: Action) {
    a.Deliver? ==> a.job.hook == hook
  }

  predicate OnlyHook(hook: Hook, s: State) {
    && (forall id <- s.workers :: s.workers[id].Finished? || s.workers[id].job.hook == hook)
    && (forall i :: 0 <= i < |s.log| && s.log[i].Funded? ==> s.log[i].hook == hook)
  }

  lemma NextOnlyHook(hook: Hook, commits: bool, s: State, a: Action)
    requires OnlyHook(hook, s) && Enabled(s, a) && DeliversOnly(hook, a)
    ensures OnlyHook(hook, Next(commits, s, a))
  {
    hide Next;
    var t := Next(commits, s, a);
    NextLog(commits, s, a);
    forall id <- t.workers
      ensures t.workers[id].Finished? || t.workers[id].job.hook == hook
    {
      NextWorkers(commits, s, a, id);
    }
  }

  lemma {:induction false} RunOnlyHook(hook: Hook, commits: bool, s: State, acts: seq<Action>)
    requires OnlyHook(hook, s) && Schedule(commits, s, acts)
    requires forall i :: 0 <= i < |acts| ==> DeliversOnly(hook, acts[i])
    ensures OnlyHook(hook, After(commits, s, acts))
    decreases |acts|
  {
    if acts != [] {
      NextOnlyHook(hook, commits, s, acts[0]);
      RunOnlyHook(hook, commits, Next(commits, s, acts[0]), acts[1..]);
    }
  }

  /** When only one of the webhooks is used, each payment is funded at most once under every interleaving. */
  lemma OneHookFundsOnce(hook: Hook, s: State, acts: seq<Action>)
    requires Initial(s) && Schedule(false, s, acts)
    requires forall i :: 0 <= i < |acts| ==> DeliversOnly(hook, acts[i])
    ensures FundedOnce(After(false, s, acts).log)
  {
    AtMostOnce(s, acts);
    RunOnlyHook(hook, false, s, acts);
  }

  // ----- A delivery that nobody interrupts

  predicate NotLogged(log: seq<Entry>, reference: string) {
    forall i :: 0 <= i < |log| ==> log[i].reference != reference
  }

  /** The delivery begins, reads the transaction and checks its flag. */
  function Checking(id: nat, job: Job): seq<Action> {
    [Deliver(id, job), ReadTransaction(id), CheckFlag(id)]
  }

  /** It goes on, according to its webhook. */
  function Funding(id: nat, job: Job): seq<Action> {
    if job.hook == Paystack then [LockWallet(id), Credit(id), Commit(id)] else [UnlockedRead(id), UnlockedWrite(id)]
  }

  /** An open transaction passes the check; a marked one ends the delivery there, and nothing else changes. */
  lemma CheckingIs(commits: bool, s: State, id: nat, job: Job)
    requires id !in s.workers && Found(s, job)
    ensures Schedule(commits, s, Checking(id, job)) && NoStaleWrite(commits, s, Checking(id, job))
    ensures After(commits, s, Checking(id, job)) ==
            s.(workers := s.workers[id := if job.row in s.processed then Finished else Checked(job)])
  {
    hide Schedule, After, NoStaleWrite;
    var s1 := Next(commits, s, Deliver(id, job));
    var s2 := Next(commits, s1, ReadTransaction(id));
    var s3 := Next(commits, s2, CheckFlag(id));
    assert s3.workers == s.workers[id := s3.workers[id]];
    ThreeActions(commits, s, Deliver(id, job), ReadTransaction(id), CheckFlag(id));
  }

  /** The state after a funding: the wallet, the mark, the log and the delivery. */
  function FundedState(s: State, id: nat, job: Job): State
    requires job.user in s.wallets
  {
    s.(wallets := s.wallets[job.user := s.wallets[job.user] + job.amount],
       processed := s.processed + {job.row},
       log := s.log + (if job.hook == Paystack then
                         [Funded(Paystack, job.reference, job.row, job.user, job.amount)]
                       else [CentralDebit("CENTRAL-" + job.reference),
                             Funded(Flutterwave, "USER-" + job.reference, job.row, job.user, job.amount)]),
       workers := s.workers[id := Finished])
  }

  /** The references a delivery logs are free. */
  predicate FreeFor(log: seq<Entry>, job: Job) {
    if job.hook == Paystack then NotLogged(log, job.reference)
    else NotLogged(log, "CENTRAL-" + job.reference) && NotLogged(log, "USER-" + job.reference)
  }

  lemma PaystackSteps(s: State, id: nat, job: Job)
    requires job.hook == Paystack && job.user in s.wallets && job.user !in s.locks && NotLogged(s.log, job.reference)
    requires id in s.workers && s.workers[id] == Checked(job)
    ensures Enabled(s, LockWallet(id))
    ensures var s1 := Next(false, s, LockWallet(id));
            && Enabled(s1, Credit(id))
            && var s2 := Next(false, s1, Credit(id));
               Enabled(s2, Commit(id)) && Next(false, s2, Commit(id)) == FundedState(s, id, job)
  {
    var s1 := Next(false, s, LockWallet(id));
    var s2 := Next(false, s1, Credit(id));
    var s3 := Next(false, s2, Commit(id));
    assert s3.workers == s.workers[id := Finished] && s3.locks == s.locks;
  }

  lemma FlutterwaveSteps(s: State, id: nat, job: Job)
    requires job.hook == Flutterwave && job.user in s.wallets && job.user !in s.locks && FreeFor(s.log, job)
    requires id in s.workers && s.workers[id] == Checked(job)
    ensures Enabled(s, UnlockedRead(id))
    ensures var s1 := Next(false, s, UnlockedRead(id));
            && Enabled(s1, UnlockedWrite(id)) && !Stale(s1, UnlockedWrite(id))
            && Next(false, s1, UnlockedWrite(id)) == FundedState(s, id, job)
  {
    var s1 := Next(false, s, UnlockedRead(id));
    assert Next(false, s1, UnlockedWrite(id)).workers == s.workers[id := Finished];
  }

  lemma FundingIs(s: State, id: nat, job: Job)
    requires id in s.workers && s.workers[id] == Checked(job)
    requires job.user in s.wallets && job.user !in s.locks && FreeFor(s.log, job)
    ensures Schedule(false, s, Funding(id, job)) && NoStaleWrite(false, s, Funding(id, job))
    ensures After(false, s, Funding(id, job)) == FundedState(s, id, job)
  {
    hide Schedule, After, NoStaleWrite, Enabled, Next, FundedState;
    if job.hook == Paystack {
      PaystackSteps(s, id, job);
      ThreeActions(false, s, LockWallet(id), Credit(id), Commit(id));
    } else {
      FlutterwaveSteps(s, id, job);
      TwoActions(false, s, UnlockedRead(id), UnlockedWrite(id));
    }
  }

  /** From any state, a delivery for an open transaction that runs through without interruption adds its amount to the
      wallet, marks the transaction and logs that, under the references of its webhook. */
  lemma AloneFunds(s: State, id: nat, job: Job)
    requires id !in s.workers && Found(s, job) && job.row !in s.processed
    requires job.user in s.wallets && job.user !in s.locks && FreeFor(s.log, job)
    ensures Schedule(false, s, Checking(id, job) + Funding(id, job))
    ensures NoStaleWrite(false, s, Checking(id, job) + Funding(id, job))
    ensures After(false, s, Checking(id, job) + Funding(id, job)) == FundedState(s, id, job)
  {
    hide Schedule, After, NoStaleWrite, Checking, Funding;
    CheckingIs(false, s, id, job);
    var s3 := s.(workers := s.workers[id := Checked(job)]);
    FundingIs(s3, id, job);
    Joined(false, s, Checking(id, job), Funding(id, job));
    assert s3.workers[id := Finished] == s.workers[id := Finished];
  }

  // ----- No wallet below zero

  predicate NonNegativeWorker(w: Worker) {
    && (!w.Finished? ==> w.job.amount >= 0)
    && (w.Locked? || w.Credited? || w.Peeked? ==> w.balance >= 0)
  }

  predicate NonNegative(s: State) {
    && (forall u <- s.wallets :: s.wallets[u] >= 0)
    && (forall id <- s.workers :: NonNegativeWorker(s.workers[id]))
  }

  lemma NextNeverNegative(commits: bool, s: State, a: Action)
    requires NonNegative(s) && Enabled(s, a) && (a.Deliver? ==> a.job.amount >= 0)
    ensures NonNegative(Next(commits, s, a))
  {
  }

  /** Whatever is overwritten or lost, no interleaving of deliveries and payouts makes a wallet negative. */
  lemma {:induction false} NeverNegative(commits: bool, s: State, acts: seq<Action>)
    requires NonNegative(s) && Schedule(commits, s, acts)
    requires forall i :: 0 <= i < |acts| && acts[i].Deliver? ==> acts[i].job.amount >= 0
    ensures NonNegative(After(commits, s, acts))
    decreases |acts|
  {
    hide NonNegative, Next, Enabled;
    if acts != [] {
      NextNeverNegative(commits, s, acts[0]);
      NeverNegative(commits, Next(commits, s, acts[0]), acts[1..]);
    }
  }

  // ----- Both webhooks for one payment

  /** The Flutterwave delivery `a` checks the flag, then a Paystack delivery `b` of the same payment runs to its end,
      then the first reads the wallet and writes it. */
  function BothHooks(a: nat, flutterwave: Job, b: nat, paystack: Job): seq<Action> {
    Checking(a, flutterwave) + (Checking(b, paystack) + Funding(b, paystack) + Funding(a, flutterwave))
  }

  /** From any state, one payment that is still open is funded by both webhooks in this way, though no write is stale:
      their log references differ. */
  lemma BothHooksFund(s: State, a: nat, flutterwave: Job, b: nat, paystack: Job)
    requires a != b && a !in s.workers && b !in s.workers && Found(s, flutterwave) && Found(s, paystack)
    requires flutterwave.hook == Flutterwave && paystack.hook == Paystack
    requires flutterwave.row == paystack.row && flutterwave.user == paystack.user && paystack.row !in s.processed
    requires paystack.user in s.wallets && paystack.user !in s.locks
    requires FreeFor(s.log, flutterwave) && FreeFor(s.log, paystack)
    ensures var acts := BothHooks(a, flutterwave, b, paystack);
            && Schedule(false, s, acts) && NoStaleWrite(false, s, acts)
            && var t, user := After(false, s, acts), paystack.user;
               && t.wallets == s.wallets[user := s.wallets[user] + paystack.amount + flutterwave.amount]
               && !FundedOnce(t.log)
  {
    hide Schedule, After, NoStaleWrite, Checking, Funding, FundedOnce;
    CheckingIs(false, s, a, flutterwave);
    var s1 := s.(workers := s.workers[a := Checked(flutterwave)]);
    AloneFunds(s1, b, paystack);
    var s2 := FundedState(s1, b, paystack);
    OwnReferences(s.log, flutterwave, paystack);
    FundingIs(s2, a, flutterwave);
    Joined(false, s1, Checking(b, paystack) + Funding(b, paystack), Funding(a, flutterwave));
    Joined(false, s, Checking(a, flutterwave), Checking(b, paystack) + Funding(b, paystack) + Funding(a, flutterwave));
    FundedTwice(s.log, FundedState(s2, a, flutterwave).log);
  }

  /** The references of the one webhook are not those of the other. */
  lemma OwnReferences(log: seq<Entry>, flutterwave: Job, paystack: Job)
    requires flutterwave.hook == Flutterwave && FreeFor(log, flutterwave) && flutterwave.reference == paystack.reference
    ensures FreeFor(log + [Funded(Paystack, paystack.reference, paystack.row, paystack.user, paystack.amount)],
                    flutterwave)
  {
    var r := paystack.reference;
    assert |"CENTRAL-" + r| != |r| && |"USER-" + r| != |r|;
  }

  lemma FundedTwice(log: seq<Entry>, later: seq<Entry>)
    requires |later| == |log| + 3 && later[|log|].Funded? && later[|log| + 2].Funded?
    requires later[|log|].row == later[|log| + 2].row
    ensures !FundedOnce(later)
  {
  }

  // ----- A credit that commits

  const JOB := Job(Paystack, "ref", 0, 1, 100)
  const UNLOCKED_JOB := Job(Flutterwave, "ref", 0, 1, 100)

  /** Two deliveries of one payment: both check the flag, one after the other locks the wallet and credits it, and then
      both commit. */
  function Duplicates(a: nat, b: nat, job: Job): seq<Action> {
    Checking(a, job) + (Checking(b, job) + ([LockWallet(a), Credit(a)] + ([LockWallet(b), Credit(b)]
    + [Commit(a), Commit(b)])))
  }

  ghost predicate SafeFrom(commits: bool, s: State) {
    forall acts :: Schedule(commits, s, acts) && NoStaleWrite(commits, s, acts) ==>
      Balanced(s.wallets, After(commits, s, acts))
  }

  function Wallet(balance: int): State {
    State(map[0 := "ref"], map[1 := balance], {}, [], [], map[], map[])
  }

  lemma CommittingSteps(s: State, id: nat, job: Job)
    requires id in s.workers && s.workers[id] == Checked(job) && job.hook == Paystack
    requires job.user in s.wallets && job.user !in s.locks
    ensures Enabled(s, LockWallet(id)) && Enabled(Next(true, s, LockWallet(id)), Credit(id))
    ensures var balance := s.wallets[job.user] + job.amount;
            Next(true, Next(true, s, LockWallet(id)), Credit(id)) ==
            s.(wallets := s.wallets[job.user := balance], workers := s.workers[id := Credited(job, balance)])
  {
    var s2 := Next(true, Next(true, s, LockWallet(id)), Credit(id));
    assert s2.locks == s.locks && s2.workers == s.workers[id := s2.workers[id]];
  }

  /** The credit gives the lock up again. */
  lemma CommittingCredit(s: State, id: nat, job: Job)
    requires id in s.workers && s.workers[id] == Checked(job) && job.hook == Paystack
    requires job.user in s.wallets && job.user !in s.locks
    ensures var acts, balance := [LockWallet(id), Credit(id)], s.wallets[job.user] + job.amount;
            && Schedule(true, s, acts) && NoStaleWrite(true, s, acts)
            && After(true, s, acts) ==
               s.(wallets := s.wallets[job.user := balance], workers := s.workers[id := Credited(job, balance)])
  {
    hide Schedule, After, NoStaleWrite, Enabled, Next;
    CommittingSteps(s, id, job);
    TwoActions(true, s, LockWallet(id), Credit(id));
  }

  /** The first commit takes the reference, the second one is undone. */
  lemma CommittingCommits(s: State, a: nat, b: nat, job: Job)
    requires a != b && a in s.workers && b in s.workers && s.workers[a].Credited? && s.workers[b].Credited?
    requires s.workers[a].job == s.workers[b].job == job && job.hook == Paystack
    requires job.user !in s.locks && NotLogged(s.log, job.reference)
    ensures var acts := [Commit(a), Commit(b)];
            && Schedule(true, s, acts) && NoStaleWrite(true, s, acts)
            && After(true, s, acts).wallets == s.wallets && After(true, s, acts).debits == s.debits
            && After(true, s, acts).log == s.log + [FundedBy(job)]
  {
    hide Schedule, After, NoStaleWrite;
    var s1 := Next(true, s, Commit(a));
    assert s1.log[|s.log|].reference == job.reference;
    TwoActions(true, s, Commit(a), Commit(b));
  }

  /** If the credit committed by itself, two deliveries of one open payment would credit it twice, from any state: both
      find the flag unset, the lock is given up by the first credit, and the unique reference comes too late. */
  lemma CommittingCreditIsUnsafe(s: State, a: nat, b: nat, job: Job)
    requires a != b && a !in s.workers && b !in s.workers && Found(s, job) && job.row !in s.processed
    requires job.hook == Paystack && job.user in s.wallets && job.user !in s.locks && NotLogged(s.log, job.reference)
    ensures Schedule(true, s, Duplicates(a, b, job)) && NoStaleWrite(true, s, Duplicates(a, b, job))
    ensures var t := After(true, s, Duplicates(a, b, job));
            && t.wallets == s.wallets[job.user := s.wallets[job.user] + 2 * job.amount]
            && t.log == s.log + [FundedBy(job)] && t.debits == s.debits
  {
    hide Schedule, After, NoStaleWrite, Checking;
    CheckingIs(true, s, a, job);
    var s1 := s.(workers := s.workers[a := Checked(job)]);
    CheckingIs(true, s1, b, job);
    var s2 := s1.(workers := s1.workers[b := Checked(job)]);
    CommittingCredit(s2, a, job);
    var s3 := After(true, s2, [LockWallet(a), Credit(a)]);
    CommittingCredit(s3, b, job);
    var s4 := After(true, s3, [LockWallet(b), Credit(b)]);
    CommittingCommits(s4, a, b, job);
    Joined(true, s3, [LockWallet(b), Credit(b)], [Commit(a), Commit(b)]);
    Joined(true, s2, [LockWallet(a), Credit(a)], [LockWallet(b), Credit(b)] + [Commit(a), Commit(b)]);
    Joined(true, s1, Checking(b, job),
           [LockWallet(a), Credit(a)] + ([LockWallet(b), Credit(b)] + [Commit(a), Commit(b)]));
    Joined(true, s, Checking(a, job), Checking(b, job)
           + ([LockWallet(a), Credit(a)] + ([LockWallet(b), Credit(b)] + [Commit(a), Commit(b)])));
  }

  /** Funding is safe from every initial state exactly when the credit stays in memory until the commit. */
  lemma SafeIffInMemory(commits: bool)
    ensures (forall s :: Initial(s) ==> SafeFrom(commits, s)) <==> !commits
  {
    if commits {
      CommittingCreditIsUnsafe(Wallet(0), 0, 1, JOB);
      var t := After(true, Wallet(0), Duplicates(0, 1, JOB));
      FundedSnoc([], FundedBy(JOB), 1);
      assert t.log == [] + [FundedBy(JOB)];
      assert !Balanced(Wallet(0).wallets, t);
      assert Initial(Wallet(0)) && !SafeFrom(true, Wallet(0));
    } else {
      forall s, acts | Initial(s) && Schedule(false, s, acts) && NoStaleWrite(false, s, acts)
        ensures Balanced(s.wallets, After(false, s, acts))
      {
        RunKeeps(s.wallets, s, acts);
      }
    }
  }
}
