/** Fees of a block: what each transaction is charged, the block's limits, and where
    the collected fees go. Executing a transaction's operations is a parameter. */
module BlockFees {
  import opened Wrappers
  import opened BlockRewards
  import opened RewardDifficulty

  const WINDOW_SIZE: nat := 120

  /** The part of the ledger the block accounting reads or writes; `rest` stands for
      everything else the operations change. */
  datatype Ledger = Ledger(blockNumber: U64, feeWindow: seq<U64>, totalStake: U64, executionPrice: U64,
                           storagePrice: U64, pendingRewards: U64, refillRewards: U64, storageGas: U64, rest: int)

  datatype Transaction = Transaction(size: U64, operations: int)

  /** Executed operations: the next ledger, the balance they leave, the gas used. */
  datatype Executed = Executed(ledger: Ledger, balance: int, gas: U64)

  /** How operations execute; the window keeps its length. */
  type Operations = (Ledger, Transaction) -> Option<Executed>

  ghost predicate KeepsWindow(ops: Operations)
  {
    forall l: Ledger, tx: Transaction :: |l.feeWindow| == WINDOW_SIZE && ops(l, tx).Some? ==>
      |ops(l, tx).value.ledger.feeWindow| == WINDOW_SIZE
  }

  datatype GasAndFees = GasAndFees(executionGas: U64, storageGas: U64, burned: U64, tip: U64)

  datatype Limits = Limits(maxTransactions: nat, maxSize: U32, maxGas: U64)

  datatype Error =
    | TooManyTransactions | TransactionsTooLarge | OperationFailed | InsufficientBalance
    | GasOverflow | TooMuchTransactionGas | TooMuchGas | RefillOverflow

  function CheckedAdd(a: U64, b: U64): Option<U64>
  {
    if a + b <= U64_MAX then Some(a + b) else None
  }

  // ---------------------------------------------------------------------------
  // One transaction

  /** The cost a transaction must cover. */
  function Cost(l: Ledger, gas: int, size: int): int
  {
    gas * l.executionPrice + size * l.storagePrice
  }

  /** The balance as the 64-bit cast leaves it. */
  function Truncated(balance: int): U64
  {
    balance % (U64_MAX + 1)
  }

  /** The fee part of applying a transaction. A balance below the cost is refused;
      the tip is what the truncated balance leaves above the cost. */
  function TransactionFees(l: Ledger, balance: int, gas: U64, size: U64): (r: Result<GasAndFees, Error>)
    ensures r.Ok? <==>
      Cost(l, gas, size) <= U64_MAX && Cost(l, gas, size) <= Truncated(balance) && Cost(l, gas, size) <= balance
    ensures r.Ok? ==> r.value.executionGas == gas && r.value.storageGas == size
    ensures r.Ok? ==> r.value.burned == Cost(l, gas, size)
    ensures r.Ok? ==> r.value.burned + r.value.tip == Truncated(balance) <= balance
    ensures r.Err? ==>
      r.error == if balance < Cost(l, gas, size) <= U64_MAX then InsufficientBalance else GasOverflow
  {
    Product(gas, l.executionPrice);
    Product(size, l.storagePrice);
    if gas * l.executionPrice > U64_MAX || size * l.storagePrice > U64_MAX then Err(GasOverflow)
    else match CheckedAdd(gas * l.executionPrice, size * l.storagePrice)
      case None => Err(GasOverflow)
      case Some(cost) =>
        if balance < cost then Err(InsufficientBalance)
        else if Truncated(balance) < cost then Err(GasOverflow)
        else Ok(GasAndFees(gas, size, cost, Truncated(balance) - cost))
  }

  /** A charged transaction. */
  datatype Charge = Charge(balance: int, fees: GasAndFees)

  function ApplyTransaction(ops: Operations, l: Ledger, tx: Transaction): Result<(Ledger, Charge), Error>
  {
    match ops(l, tx)
    case None => Err(OperationFailed)
    case Some(done) =>
      match TransactionFees(done.ledger, done.balance, done.gas, tx.size)
      case Err(e) => Err(e)
      case Ok(fees) => Ok((done.ledger, Charge(done.balance, fees)))
  }

  /** A transaction is charged at the prices that hold after its operations, for the gas
      they used and its own size, out of the balance they leave; it leads to the ledger
      that they lead to. It fails as its operations or its fees do. */
  lemma {:induction false} ChargedAfterOperations(ops: Operations, l: Ledger, tx: Transaction)
    ensures ops(l, tx).None? ==> ApplyTransaction(ops, l, tx) == Err(OperationFailed)
    ensures ops(l, tx).Some? ==>
      var Executed(after, balance, gas) := ops(l, tx).value;
      var cost := gas * after.executionPrice + tx.size * after.storagePrice;
      var r := ApplyTransaction(ops, l, tx);
      && (balance >= cost && cost <= U64_MAX && balance <= U64_MAX ==>
            r == Ok((after, Charge(balance, GasAndFees(gas, tx.size, cost, balance - cost)))))
      && (r.Ok? ==> r.value.0 == after && r.value.1.balance == balance && balance >= cost && cost <= U64_MAX)
      && (balance < cost <= U64_MAX ==> r == Err(InsufficientBalance))
      && (cost > U64_MAX ==> r == Err(GasOverflow))
  {
    if ops(l, tx).Some? {
      var Executed(after, balance, gas) := ops(l, tx).value;
      Product(gas, after.executionPrice);
      Product(tx.size, after.storagePrice);
    }
  }

  /** Both the block's capacity and a single oversized transaction are refused. */
  function AddFees(sum: GasAndFees, tx: GasAndFees, maxGas: U64): (r: Result<GasAndFees, Error>)
    ensures r.Ok? <==>
      && sum.executionGas + tx.executionGas <= maxGas && sum.storageGas + tx.storageGas <= U64_MAX
      && sum.burned + tx.burned <= U64_MAX && sum.tip + tx.tip <= U64_MAX
    ensures r.Ok? ==>
      && r.value.executionGas == sum.executionGas + tx.executionGas
      && r.value.storageGas == sum.storageGas + tx.storageGas
      && r.value.burned == sum.burned + tx.burned && r.value.tip == sum.tip + tx.tip
    ensures r == Err(TooMuchTransactionGas) <==> tx.executionGas > maxGas
    ensures r == Err(TooMuchGas) <==>
      tx.executionGas <= maxGas && maxGas < sum.executionGas + tx.executionGas <= U64_MAX
    ensures r.Err? ==> r.error in {TooMuchTransactionGas, TooMuchGas, GasOverflow}
  {
    if tx.executionGas > maxGas then Err(TooMuchTransactionGas)
    else match CheckedAdd(sum.executionGas, tx.executionGas)
      case None => Err(GasOverflow)
      case Some(gas) =>
        if gas > maxGas then Err(TooMuchGas)
        else
          var storage := CheckedAdd(sum.storageGas, tx.storageGas);
          var burned, tip := CheckedAdd(sum.burned, tx.burned), CheckedAdd(sum.tip, tx.tip);
          if storage.None? || burned.None? || tip.None? then Err(GasOverflow)
          else Ok(GasAndFees(gas, storage.value, burned.value, tip.value))
  }

  /** Applying one transaction, as a value. */
  type Charging = (Ledger, Transaction) -> Result<(Ledger, Charge), Error>

  function Charged(ops: Operations): Charging
  {
    (l, tx) => ApplyTransaction(ops, l, tx)
  }

  // ---------------------------------------------------------------------------
  // The block's reference meaning: plain sums over its transactions

  function Execute(apply: Charging, l: Ledger, txs: seq<Transaction>): Option<(Ledger, seq<Charge>)>
  {
    if txs == [] then Some((l, []))
    else match Execute(apply, l, txs[..|txs| - 1])
      case None => None
      case Some((m, charges)) =>
        match apply(m, txs[|txs| - 1])
        case Err(_) => None
        case Ok((next, charge)) => Some((next, charges + [charge]))
  }

  function Sum(xs: seq<nat>): nat
  {
    if xs == [] then 0 else Sum(xs[..|xs| - 1]) + xs[|xs| - 1]
  }

  function TotalSize(txs: seq<Transaction>): nat
  {
    if txs == [] then 0 else TotalSize(txs[..|txs| - 1]) + txs[|txs| - 1].size
  }

  datatype Totals = Totals(balance: int, gas: nat, storage: nat, burned: nat, tip: nat)

  function Total(charges: seq<Charge>): Totals
  {
    if charges == [] then Totals(0, 0, 0, 0, 0)
    else
      var t, c := Total(charges[..|charges| - 1]), charges[|charges| - 1];
      Totals(t.balance + c.balance, t.gas + c.fees.executionGas, t.storage + c.fees.storageGas,
             t.burned + c.fees.burned, t.tip + c.fees.tip)
  }

  predicate TotalsFit(limits: Limits, t: Totals)
  {
    t.gas <= limits.maxGas && t.storage <= U64_MAX && t.burned <= U64_MAX && t.tip <= U64_MAX
  }

  /** The block respects its limits, and its totals are representable. */
  ghost predicate WithinLimits(apply: Charging, limits: Limits, l: Ledger, txs: seq<Transaction>)
  {
    && |txs| <= limits.maxTransactions && TotalSize(txs) <= limits.maxSize
    && Execute(apply, l, txs).Some? && TotalsFit(limits, Total(Execute(apply, l, txs).value.1))
  }

  // ---------------------------------------------------------------------------
  // Conservation

  /** Every balance is representable. */
  predicate BalancesFit(charges: seq<Charge>)
  {
    forall c :: c in charges ==> c.balance <= U64_MAX
  }

  /** What the transactions leave is burned or tipped, and nothing is created: exactly
      when every balance fits the cast is nothing lost. */
  lemma {:induction false} FeesAreConserved(ops: Operations, l: Ledger, txs: seq<Transaction>)
    requires Execute(Charged(ops), l, txs).Some?
    ensures var charges := Execute(Charged(ops), l, txs).value.1;
      && |charges| == |txs| && Total(charges).storage == TotalSize(txs)
      && Total(charges).burned + Total(charges).tip <= Total(charges).balance
      && (Total(charges).burned + Total(charges).tip == Total(charges).balance <==> BalancesFit(charges))
  {
    if txs != [] {
      var init, last := txs[..|txs| - 1], txs[|txs| - 1];
      FeesAreConserved(ops, l, init);
      var (m, before) := Execute(Charged(ops), l, init).value;
      var charge := ApplyTransaction(ops, m, last).value.1;
      var charges := before + [charge];
      TotalAppend(before, charge);
      assert BalancesFit(charges) <==> BalancesFit(before) && charge.balance <= U64_MAX by {
        if BalancesFit(charges) {
          assert forall c :: c in before ==> c in charges;
          assert charge in charges;
        }
      }
    }
  }

  /** A balance one above the widest value is accepted and lost by the cast. */
  lemma OversizedBalanceIsLost(l: Ledger, ops: Operations, tx: Transaction)
    requires l.executionPrice == l.storagePrice == 0
    requires ops(l, tx) == Some(Executed(l, U64_MAX + 1, 0))
    ensures Execute(Charged(ops), l, [tx]).Some?
    ensures var t := Total(Execute(Charged(ops), l, [tx]).value.1); t.balance == U64_MAX + 1 && t.burned + t.tip == 0
  {
    assert [tx][..0] == [];
    assert Execute(Charged(ops), l, [tx][..0]) == Some((l, []));
    var charge := ApplyTransaction(ops, l, tx).value.1;
    assert ([] + [charge])[..0] == [];
    assert Total([charge][..0]) == Totals(0, 0, 0, 0, 0);
    assert [] + [charge] == [charge];
  }

  lemma {:induction false} PrefixExecutes(apply: Charging, l: Ledger, txs: seq<Transaction>, n: nat)
    requires n <= |txs| && Execute(apply, l, txs).Some?
    ensures Execute(apply, l, txs[..n]).Some?
    ensures var part, all := Total(Execute(apply, l, txs[..n]).value.1), Total(Execute(apply, l, txs).value.1);
      part.gas <= all.gas && part.storage <= all.storage && part.burned <= all.burned && part.tip <= all.tip
  {
    if n == |txs| {
      assert txs[..n] == txs;
    } else {
      var init := txs[..|txs| - 1];
      assert init[..n] == txs[..n];
      PrefixExecutes(apply, l, init, n);
      var charges := Execute(apply, l, txs).value.1;
      assert charges[..|charges| - 1] == Execute(apply, l, init).value.1;
    }
  }

  lemma {:induction false} PrefixIsSmaller(txs: seq<Transaction>, n: nat)
    requires n <= |txs|
    ensures TotalSize(txs[..n]) <= TotalSize(txs)
  {
    if n == |txs| {
      assert txs[..n] == txs;
    } else {
      assert txs[..|txs| - 1][..n] == txs[..n];
      PrefixIsSmaller(txs[..|txs| - 1], n);
    }
  }

  lemma {:induction false} PrefixWithinLimits(apply: Charging, limits: Limits, l: Ledger, txs: seq<Transaction>, n: nat)
    requires n <= |txs| && WithinLimits(apply, limits, l, txs)
    ensures WithinLimits(apply, limits, l, txs[..n])
  {
    PrefixExecutes(apply, l, txs, n);
    PrefixIsSmaller(txs, n);
  }

  // ---------------------------------------------------------------------------
  // Where the fees go

  datatype BlockConfig = BlockConfig(limits: Limits, rewards: Config, pow: PowConfig)

  predicate ValidBlockConfig(c: BlockConfig)
  {
    ValidConfig(c.rewards) && c.pow.powShare <= c.pow.shareDenominator
  }

  /** How a block's fees are credited. */
  datatype Credit = Credit(refill: U64, pooled: U64, blend: U64, leader: U64)

  function CreditOf(c: BlockConfig, l: Ledger, burned: U64): Credit
    requires ValidBlockConfig(c) && |l.feeWindow| == WINDOW_SIZE
  {
    var refill := PowFeeShare(c.pow, burned);
    var pooled: U64 := burned - refill;
    var window := l.feeWindow[l.blockNumber % WINDOW_SIZE := pooled];
    SumFits(window);
    var (blend, leader) := Rewards(c.rewards, Sum(window), pooled, l.totalStake);
    Credit(refill, pooled, blend, leader)
  }

  /** The credits in numbers: the refill is the proof-of-work share of the burned fees
      rounded down, the rest is pooled, and Blend and the leader get their parts, rounded
      down, of a reward computed from this block's pooled fee and the fee window that
      includes it. */
  lemma {:induction false} CreditIsExact(c: BlockConfig, l: Ledger, burned: U64)
    requires ValidBlockConfig(c) && |l.feeWindow| == WINDOW_SIZE
    ensures var credit := CreditOf(c, l, burned);
      var window := l.feeWindow[l.blockNumber % WINDOW_SIZE := burned - credit.refill];
      var n := RewardNumerator(c.rewards, Weight(c.rewards, Sum(window), l.totalStake), credit.pooled);
      var d, share := RewardDenominator(c.rewards) * c.rewards.blendShare.denominator, c.rewards.blendShare;
      && credit.refill * c.pow.shareDenominator <= burned * c.pow.powShare
      && burned * c.pow.powShare < (credit.refill + 1) * c.pow.shareDenominator
      && credit.pooled == burned - credit.refill
      && credit.blend * d <= n * share.numerator < (credit.blend + 1) * d
      && credit.leader * d <= n * (share.denominator - share.numerator) < (credit.leader + 1) * d
  {
    var refill := PowFeeShare(c.pow, burned);
    var pooled: U64 := burned - refill;
    var window := l.feeWindow[l.blockNumber % WINDOW_SIZE := pooled];
    SumFits(window);
    var shares := Rewards(c.rewards, Sum(window), pooled, l.totalStake);
  }

  ghost predicate CreditFits(c: BlockConfig, l: Ledger, burned: U64, tip: U64)
    requires ValidBlockConfig(c) && |l.feeWindow| == WINDOW_SIZE
  {
    CreditOf(c, l, burned).leader + tip <= U64_MAX && l.refillRewards + CreditOf(c, l, burned).refill <= U64_MAX
  }

  /** The summed window is far below a `u128`. */
  lemma {:induction false} SumFits(xs: seq<U64>)
    ensures Sum(xs) <= |xs| * U64_MAX
  {
    if xs != [] {
      SumFits(xs[..|xs| - 1]);
      assert |xs| * U64_MAX == (|xs| - 1) * U64_MAX + U64_MAX;
    }
  }

  /** `get_summed_fees`. */
  method SummedFees(window: seq<U64>) returns (sum: U128)
    requires |window| == WINDOW_SIZE
    ensures sum == Sum(window)
  {
    sum := 0;
    for i := 0 to |window|
      invariant sum == Sum(window[..i])
    {
      assert window[..i + 1][..i] == window[..i];
      SumFits(window[..i + 1]);
      sum := sum + window[i];
    }
    assert window[..|window|] == window;
  }

  /** Burned fees are split between the proof-of-work pool and the fee window; the
      leader gets its share and the tips. The reward total wraps at 64 bits. */
  method ComputeBlockRewards(c: BlockConfig, l: Ledger, burned: U64, tip: U64)
    returns (r: Result<(Ledger, U64), Error>, credit: Credit)
    requires ValidBlockConfig(c) && |l.feeWindow| == WINDOW_SIZE
    ensures credit == CreditOf(c, l, burned) && credit.refill + credit.pooled == burned
    ensures r.Ok? <==> CreditFits(c, l, burned, tip)
    ensures r.Ok? ==> var (m, blend) := r.value;
      && blend == credit.blend
      && m.feeWindow == l.feeWindow[l.blockNumber % WINDOW_SIZE := credit.pooled]
      && m.refillRewards == l.refillRewards + credit.refill
      && m.pendingRewards == (l.pendingRewards + credit.leader + tip) % (U64_MAX + 1)
      && m == l.(feeWindow := m.feeWindow, refillRewards := m.refillRewards, pendingRewards := m.pendingRewards)
  {
    var ledger := l;
    var index := ledger.blockNumber % WINDOW_SIZE;
    var refill := PowFeeShare(c.pow, burned);
    var pooled: U64 := burned - refill;
    ledger := ledger.(feeWindow := ledger.feeWindow[index := pooled]);
    var summed := SummedFees(ledger.feeWindow);
    var (blend, leader) := Rewards(c.rewards, summed, ledger.feeWindow[index], ledger.totalStake);
    credit := Credit(refill, pooled, blend, leader);
    var withTips := CheckedAdd(leader, tip);
    if withTips.None? {
      return Err(GasOverflow), credit;
    }
    ledger := ledger.(pendingRewards := (ledger.pendingRewards + withTips.value) % (U64_MAX + 1));
    var refilled := CheckedAdd(ledger.refillRewards, refill);
    if refilled.None? {
      return Err(RefillOverflow), credit;
    }
    ledger := ledger.(refillRewards := refilled.value);
    r := Ok((ledger, blend));
  }

  // ---------------------------------------------------------------------------
  // The block

  function FeesOf(t: Totals): GasAndFees
    requires t.gas <= U64_MAX && t.storage <= U64_MAX && t.burned <= U64_MAX && t.tip <= U64_MAX
  {
    GasAndFees(t.gas, t.storage, t.burned, t.tip)
  }

  lemma {:induction false} ExecuteOneMore(apply: Charging, l: Ledger, txs: seq<Transaction>, tx: Transaction)
    requires Execute(apply, l, txs).Some?
    ensures var (m, charges) := Execute(apply, l, txs).value;
      Execute(apply, l, txs + [tx])
        == match apply(m, tx) case Err(_) => None case Ok((next, charge)) => Some((next, charges + [charge]))
    ensures TotalSize(txs + [tx]) == TotalSize(txs) + tx.size
  {
    var all := txs + [tx];
    assert all[..|all| - 1] == txs && all[|all| - 1] == tx;
  }

  lemma {:induction false} TotalAppend(charges: seq<Charge>, charge: Charge)
    ensures var t, f := Total(charges), charge.fees;
      Total(charges + [charge]) ==
        Totals(t.balance + charge.balance, t.gas + f.executionGas, t.storage + f.storageGas, t.burned + f.burned,
               t.tip + f.tip)
  {
    var more := charges + [charge];
    assert more[..|more| - 1] == charges && more[|more| - 1] == charge;
  }

  lemma {:induction false} TotalOneMore(limits: Limits, charges: seq<Charge>, charge: Charge)
    requires TotalsFit(limits, Total(charges))
    ensures var added := AddFees(FeesOf(Total(charges)), charge.fees, limits.maxGas);
      && (added.Ok? <==> TotalsFit(limits, Total(charges + [charge])))
      && (added.Ok? ==> added.value == FeesOf(Total(charges + [charge])))
  {
    TotalAppend(charges, charge);
    AddFeesAdds(limits, Total(charges), Total(charges + [charge]), charge.fees);
  }

  lemma {:induction false} AddFeesAdds(limits: Limits, t: Totals, u: Totals, f: GasAndFees)
    requires TotalsFit(limits, t)
    requires u.gas == t.gas + f.executionGas && u.storage == t.storage + f.storageGas && u.burned == t.burned + f.burned
    requires u.tip == t.tip + f.tip
    ensures var added := AddFees(FeesOf(t), f, limits.maxGas);
      (added.Ok? <==> TotalsFit(limits, u)) && (added.Ok? ==> added.value == FeesOf(u))
  {
    var added := AddFees(FeesOf(t), f, limits.maxGas);
    assert added.Ok? <==> TotalsFit(limits, u);
  }

  /** When one more transaction keeps the limits. */
  lemma {:induction false} LimitsOneMore(apply: Charging, limits: Limits, l: Ledger, txs: seq<Transaction>,
                                         tx: Transaction, m: Ledger, charges: seq<Charge>)
    requires WithinLimits(apply, limits, l, txs) && Execute(apply, l, txs) == Some((m, charges))
    ensures WithinLimits(apply, limits, l, txs + [tx]) <==>
      && |txs| < limits.maxTransactions && TotalSize(txs) + tx.size <= limits.maxSize
      && apply(m, tx).Ok? && TotalsFit(limits, Total(charges + [apply(m, tx).value.1]))
    ensures apply(m, tx).Ok? ==>
      Execute(apply, l, txs + [tx]) == Some((apply(m, tx).value.0, charges + [apply(m, tx).value.1]))
    ensures TotalSize(txs + [tx]) == TotalSize(txs) + tx.size
  {
    ExecuteOneMore(apply, l, txs, tx);
  }

  /** One round of the loop; sizes saturate. */
  method ApplyNext(apply: Charging, limits: Limits, ledger: Ledger, fees: GasAndFees, size: U64, index: nat,
                   tx: Transaction)
      returns (r: Result<(Ledger, GasAndFees), Error>, total: U64)
    ensures r.Ok? <==>
      && index < limits.maxTransactions && size + tx.size <= limits.maxSize
      && apply(ledger, tx).Ok? && AddFees(fees, apply(ledger, tx).value.1.fees, limits.maxGas).Ok?
    ensures r.Ok? ==>
      && total == size + tx.size
      && r.value == (apply(ledger, tx).value.0, AddFees(fees, apply(ledger, tx).value.1.fees, limits.maxGas).value)
    ensures index >= limits.maxTransactions ==> r == Err(TooManyTransactions)
    ensures index < limits.maxTransactions && size + tx.size > limits.maxSize ==> r == Err(TransactionsTooLarge)
    ensures index < limits.maxTransactions && size + tx.size <= limits.maxSize && r.Err? ==>
      r.error == if apply(ledger, tx).Err? then apply(ledger, tx).error
                 else AddFees(fees, apply(ledger, tx).value.1.fees, limits.maxGas).error
  {
    total := size;
    if index >= limits.maxTransactions {
      return Err(TooManyTransactions), total;
    }
    total := if size + tx.size <= U64_MAX then size + tx.size else U64_MAX;
    if total > limits.maxSize {
      return Err(TransactionsTooLarge), total;
    }
    var applied := apply(ledger, tx);
    if applied.Err? {
      return Err(applied.error), total;
    }
    var added := AddFees(fees, applied.value.1.fees, limits.maxGas);
    if added.Err? {
      return Err(added.error), total;
    }
    r := Ok((applied.value.0, added.value));
  }

  /** The loop over a block's transactions succeeds exactly when the plain totals
      respect the limits, and returns those totals. */
  method ApplyTransactions(apply: Charging, limits: Limits, l: Ledger, txs: seq<Transaction>)
      returns (r: Result<(Ledger, GasAndFees), Error>)
    ensures r.Ok? <==> WithinLimits(apply, limits, l, txs)
    ensures r.Ok? ==>
      var (m, charges) := Execute(apply, l, txs).value;
      r.value == (m, FeesOf(Total(charges)))
  {
    var fees := GasAndFees(0, 0, 0, 0);
    var ledger, size := l, 0;
    ghost var charges := [];
    for i := 0 to |txs|
      invariant WithinLimits(apply, limits, l, txs[..i])
      invariant Execute(apply, l, txs[..i]) == Some((ledger, charges)) && size == TotalSize(txs[..i])
      invariant fees == FeesOf(Total(charges))
    {
      assert txs[..i + 1] == txs[..i] + [txs[i]];
      LimitsOneMore(apply, limits, l, txs[..i], txs[i], ledger, charges);
      if apply(ledger, txs[i]).Ok? {
        TotalOneMore(limits, charges, apply(ledger, txs[i]).value.1);
      }
      var next;
      ghost var was := ledger;
      next, size := ApplyNext(apply, limits, ledger, fees, size, i, txs[i]);
      if next.Err? {
        NotWithinLimits(apply, limits, l, txs, i + 1);
        return Err(next.error);
      }
      charges := charges + [apply(was, txs[i]).value.1];
      ledger, fees := next.value.0, next.value.1;
    }
    assert txs[..|txs|] == txs;
    r := Ok((ledger, fees));
  }

  lemma {:induction false} NotWithinLimits(apply: Charging, limits: Limits, l: Ledger, txs: seq<Transaction>, n: nat)
    requires n <= |txs| && !WithinLimits(apply, limits, l, txs[..n])
    ensures !WithinLimits(apply, limits, l, txs)
  {
    if WithinLimits(apply, limits, l, txs) {
      PrefixWithinLimits(apply, limits, l, txs, n);
    }
  }

  lemma {:induction false} ExecuteKeepsWindow(ops: Operations, l: Ledger, txs: seq<Transaction>)
    requires KeepsWindow(ops) && |l.feeWindow| == WINDOW_SIZE && Execute(Charged(ops), l, txs).Some?
    ensures |Execute(Charged(ops), l, txs).value.0.feeWindow| == WINDOW_SIZE
  {
    if txs != [] {
      ExecuteKeepsWindow(ops, l, txs[..|txs| - 1]);
    }
  }

  /** A block is accepted exactly when its plain totals respect the limits and its
      rewards can be credited. Its burned fees are the refill plus the pooled fee,
      and burned fees and tips are the transactions' balances exactly when every
      balance is representable. */
  method ApplyBlockContents(ops: Operations, c: BlockConfig, l: Ledger, txs: seq<Transaction>)
      returns (r: Result<(Ledger, U64), Error>, fees: GasAndFees, credit: Credit)
    requires ValidBlockConfig(c) && |l.feeWindow| == WINDOW_SIZE && KeepsWindow(ops)
    ensures r.Ok? ==> WithinLimits(Charged(ops), c.limits, l, txs)
    ensures WithinLimits(Charged(ops), c.limits, l, txs) ==>
      var (m, charges) := Execute(Charged(ops), l, txs).value;
      && |m.feeWindow| == WINDOW_SIZE && fees == FeesOf(Total(charges))
      && (r.Ok? <==> CreditFits(c, m, fees.burned, fees.tip) && m.storageGas + TotalSize(txs) <= U64_MAX)
    ensures r.Ok? ==>
      var (m, charges) := Execute(Charged(ops), l, txs).value;
      && (fees.burned + fees.tip == Total(charges).balance <==> BalancesFit(charges))
      && credit == CreditOf(c, m, fees.burned) && fees.burned == credit.refill + credit.pooled
      && r.value.0 == m.(feeWindow := m.feeWindow[m.blockNumber % WINDOW_SIZE := credit.pooled],
                         refillRewards := m.refillRewards + credit.refill,
                         pendingRewards := (m.pendingRewards + credit.leader + fees.tip) % (U64_MAX + 1),
                         storageGas := m.storageGas + TotalSize(txs))
      && r.value.1 == credit.blend
  {
    fees, credit := GasAndFees(0, 0, 0, 0), Credit(0, 0, 0, 0);
    var applied := ApplyTransactions(Charged(ops), c.limits, l, txs);
    if applied.Err? {
      return Err(applied.error), fees, credit;
    }
    fees := applied.value.1;
    FeesAreConserved(ops, l, txs);
    ExecuteKeepsWindow(ops, l, txs);
    var credited;
    credited, credit := ComputeBlockRewards(c, applied.value.0, fees.burned, fees.tip);
    if credited.Err? {
      return Err(credited.error), fees, credit;
    }
    var (paid, blend) := credited.value;
    var stored := CheckedAdd(paid.storageGas, fees.storageGas);
    if stored.None? {
      return Err(GasOverflow), fees, credit;
    }
    r := Ok((paid.(storageGas := stored.value), blend));
  }

  // ---------------------------------------------------------------------------
  // The fee window over a chain

  function Zeros(n: nat): (z: seq<nat>)
    ensures |z| == n && forall i :: 0 <= i < n ==> z[i] == 0
    ensures Sum(z) == 0
  {
    if n == 0 then [] else
    var z := Zeros(n - 1);
    assert (z + [0])[..n - 1] == z;
    z + [0]
  }

  /** The window after blocks 1, 2, ... that pooled the given fees. */
  function Window(fees: seq<nat>): (w: seq<nat>)
    ensures |w| == WINDOW_SIZE
  {
    if fees == [] then Zeros(WINDOW_SIZE)
    else Window(fees[..|fees| - 1])[|fees| % WINDOW_SIZE := fees[|fees| - 1]]
  }

  /** The fees of the last `WINDOW_SIZE` blocks. */
  function LastFees(fees: seq<nat>): seq<nat>
  {
    if |fees| <= WINDOW_SIZE then fees else fees[|fees| - WINDOW_SIZE..]
  }

  /** The rewards average over exactly the last `WINDOW_SIZE` blocks. */
  lemma {:induction false} WindowSumsLastFees(fees: seq<nat>)
    ensures Sum(Window(fees)) == Sum(LastFees(fees))
  {
    if fees != [] {
      var n, init, last := |fees|, fees[..|fees| - 1], fees[|fees| - 1];
      WindowSumsLastFees(init);
      SumOfUpdate(Window(init), n % WINDOW_SIZE, last);
      Overwritten(init, n);
      if n <= WINDOW_SIZE {
        assert LastFees(fees)[..n - 1] == init;
      } else {
        var before, now := LastFees(init), LastFees(fees);
        assert now == before[1..] + [last] || n == WINDOW_SIZE + 1;
        if n == WINDOW_SIZE + 1 {
          assert before == init && now == init[1..] + [last];
        }
        assert now[..|now| - 1] == before[1..];
        SumOfTail(before);
      }
    }
  }

  /** The fees a block's rewards are computed from: block `n` of a chain pools its own
      fee with those of the `WINDOW_SIZE - 1` blocks before it. */
  lemma {:induction false} BlockPoolsRecentFees(l: Ledger, fees: seq<nat>, pooled: U64)
    requires l.feeWindow == Window(fees) && l.blockNumber == |fees| + 1
    ensures var next := l.feeWindow[l.blockNumber % WINDOW_SIZE := pooled];
      next == Window(fees + [pooled]) && Sum(next) == Sum(LastFees(fees + [pooled]))
  {
    assert (fees + [pooled])[..|fees|] == fees;
    WindowSumsLastFees(fees + [pooled]);
  }

  /** The slot about to be overwritten holds the fee that leaves the window. */
  lemma {:induction false} Overwritten(fees: seq<nat>, block: nat)
    requires |fees| < block <= |fees| + WINDOW_SIZE
    ensures Window(fees)[block % WINDOW_SIZE] == if block <= WINDOW_SIZE then 0 else fees[block - WINDOW_SIZE - 1]
  {
    if fees != [] {
      var n := |fees|;
      if block == n + WINDOW_SIZE {
        assert block % WINDOW_SIZE == n % WINDOW_SIZE;
      } else {
        SlotsDiffer(n, block);
        Overwritten(fees[..n - 1], block);
      }
    }
  }

  lemma SlotsDiffer(n: nat, m: nat)
    requires n < m < n + WINDOW_SIZE
    ensures n % WINDOW_SIZE != m % WINDOW_SIZE
  {
    var q, r := n / 120, n % 120;
    assert n == 120 * q + r;
    if r + (m - n) < 120 {
      assert m == 120 * q + (r + m - n);
    } else {
      assert m == 120 * (q + 1) + (r + m - n - 120);
    }
  }

  lemma {:induction false} SumOfUpdate(xs: seq<nat>, i: nat, x: nat)
    requires i < |xs|
    ensures Sum(xs[i := x]) == Sum(xs) - xs[i] + x
  {
    var init := xs[..|xs| - 1];
    if i == |xs| - 1 {
      assert xs[i := x][..|xs| - 1] == init;
    } else {
      assert xs[i := x][..|xs| - 1] == init[i := x];
      SumOfUpdate(init, i, x);
    }
  }

  lemma {:induction false} SumOfTail(xs: seq<nat>)
    requires xs != []
    ensures Sum(xs[1..]) == Sum(xs) - xs[0]
  {
    if |xs| == 1 {
      assert xs[..0] == [];
    } else {
      assert xs[1..][..|xs| - 2] == xs[..|xs| - 1][1..];
      SumOfTail(xs[..|xs| - 1]);
    }
  }
}
