/** One transaction of core/state_transition.go: buying gas, paying the intrinsic
    cost, executing, refunding and paying the coinbase. */
module StateTransition {
  import opened Wrappers
  import opened WorldState
  import opened Execution

  const TX_GAS := 21000
  const TX_DATA_ZERO_GAS := 4
  const TX_DATA_NON_ZERO_GAS := 68

  datatype Message = Message(from: Addr, to: Option<Addr>, gasPrice: nat, gas: nat, value: nat, nonce: nat, data: seq<nat>)

  /** What the virtual machine does with the message: the address derived for a
      new contract, and the body that runs. */
  datatype Script = Script(created: Addr, body: Body)

  datatype TxError = NonceMismatch | InsufficientForGas | PoolExhausted | IntrinsicOutOfGas | CannotTransfer

  datatype Outcome = Outcome(state: State, pool: nat, usedGas: nat, error: Option<TxError>)

  function NonZeros(data: seq<nat>): nat {
    if data == [] then 0 else NonZeros(data[..|data| - 1]) + if data[|data| - 1] != 0 then 1 else 0
  }

  /** `IntrinsicGas`. */
  function IntrinsicGas(data: seq<nat>): nat {
    TX_GAS + TX_DATA_NON_ZERO_GAS * NonZeros(data) + TX_DATA_ZERO_GAS * (|data| - NonZeros(data))
  }

  /** `from()`: the sender's account exists afterwards. */
  function WithSender(s: State, from: Addr): State {
    if from in s.accounts then s else s.(accounts := CreateAccount(s.accounts, from))
  }

  function Credit(s: State, a: Addr, amount: int): State {
    s.(accounts := AddBalance(s.accounts, a, amount))
  }

  /** The call or creation, and the gas it leaves. */
  function Execute(s: State, msg: Message, gas: nat, script: Script): Result {
    match msg.to
    case None =>
      Deposit(Exec(s, msg.from, New(script.created), msg.value, gas, 0, script.body), script.created)
    case Some(to) =>
      var bumped := SetNonce(s.accounts, msg.from, NonceOf(s.accounts, msg.from) + 1);
      Exec(s.(accounts := Opened(bumped, At(to))), msg.from, At(to), msg.value, gas, 0, script.body)
  }

  /** The refund counter, capped to half of the gas used. */
  function RefundOf(used: nat, counter: nat): nat {
    if used / 2 > counter then counter else used / 2
  }

  /** `refundGas` and the payment to the coinbase. */
  function Settle(r: Result, msg: Message, coinbase: Addr, pool: nat): Outcome
    requires r.gas <= msg.gas
  {
    var refund := RefundOf(msg.gas - r.gas, r.state.refund);
    var left := r.gas + refund;
    var s1 := Credit(r.state, msg.from, r.gas * msg.gasPrice);
    var s2 := Credit(s1, msg.from, refund * msg.gasPrice);
    Outcome(Credit(s2, coinbase, (msg.gas - left) * msg.gasPrice), pool + left, msg.gas - left, None)
  }

  /** `buyGas`: why the gas cannot be bought. */
  function BuyError(s: State, pool: nat, msg: Message): Option<TxError> {
    if BalanceOf(s.accounts, msg.from) < msg.gas * msg.gasPrice then Some(InsufficientForGas)
    else if pool < msg.gas then Some(PoolExhausted)
    else None
  }

  function PreError(s: State, pool: nat, msg: Message): Option<TxError> {
    if NonceOf(s.accounts, msg.from) != msg.nonce then Some(NonceMismatch) else BuyError(s, pool, msg)
  }

  function Charged(s: State, msg: Message): State {
    Credit(s, msg.from, -(msg.gas * msg.gasPrice))
  }

  /** What follows once the gas is bought. */
  function Spent(s: State, pool: nat, msg: Message, coinbase: Addr, script: Script): Outcome {
    if msg.gas < IntrinsicGas(msg.data) then Outcome(s, pool, 0, Some(IntrinsicOutOfGas))
    else
      var r := Execute(s, msg, msg.gas - IntrinsicGas(msg.data), script);
      if r.error == Some(ValueTransferError) then Outcome(r.state, pool, 0, Some(CannotTransfer))
      else
        ExecuteKept(s, msg, msg.gas - IntrinsicGas(msg.data), script);
        Settle(r, msg, coinbase, pool)
  }

  /** `transitionDb`. */
  function Transition(s: State, pool: nat, msg: Message, coinbase: Addr, script: Script): Outcome {
    var s0 := WithSender(s, msg.from);
    var e := PreError(s0, pool, msg);
    if e.Some? then Outcome(s0, pool, 0, e) else Spent(Charged(s0, msg), pool - msg.gas, msg, coinbase, script)
  }

  /** The gas has been bought and is not given back. */
  predicate Paid(e: Option<TxError>) {
    e == Some(IntrinsicOutOfGas) || e == Some(CannotTransfer)
  }

  // ---------- proofs ----------

  /** No self-destruct of the script names its own account. */
  predicate CleanScript(msg: Message, script: Script) {
    Clean(if msg.to.Some? then msg.to.value else script.created, script.body)
  }

  lemma ExecuteKept(s: State, msg: Message, gas: nat, script: Script)
    ensures Kept(s, gas, CleanScript(msg, script), Execute(s, msg, gas, script))
  {
    match msg.to
    case None =>
      var r := Exec(s, msg.from, New(script.created), msg.value, gas, 0, script.body);
      ExecKept(s, msg.from, New(script.created), msg.value, gas, 0, script.body);
      DepositKept(s, gas, Clean(script.created, script.body), r, script.created);
    case Some(to) =>
      var bumped := SetNonce(s.accounts, msg.from, NonceOf(s.accounts, msg.from) + 1);
      SetNonceTotal(s.accounts, msg.from, NonceOf(s.accounts, msg.from) + 1);
      OpenedTotal(bumped, At(to));
      ExecKept(s.(accounts := Opened(bumped, At(to))), msg.from, At(to), msg.value, gas, 0, script.body);
  }

  lemma ExecuteKeepsSender(s: State, msg: Message, gas: nat, script: Script)
    requires msg.from in s.accounts
    ensures msg.from in Execute(s, msg, gas, script).state.accounts
  {
    match msg.to
    case None => ExecKeepsAccounts(s, msg.from, New(script.created), msg.value, gas, 0, script.body);
    case Some(to) =>
      var bumped := SetNonce(s.accounts, msg.from, NonceOf(s.accounts, msg.from) + 1);
      ExecKeepsAccounts(s.(accounts := Opened(bumped, At(to))), msg.from, At(to), msg.value, gas, 0, script.body);
  }

  lemma CreditSupply(s: State, a: Addr, amount: int)
    ensures Supply(Credit(s, a, amount)) == Supply(s) + amount
  {
    AddBalanceTotal(s.accounts, a, amount);
  }

  lemma WithSenderKept(s: State, from: Addr)
    ensures Supply(WithSender(s, from)) == Supply(s)
    ensures NonNegative(s.accounts) ==> NonNegative(WithSender(s, from).accounts)
  {
    CreateAccountTotal(s.accounts, from);
  }

  lemma RefundHalf(used: nat, counter: nat)
    ensures 2 * RefundOf(used, counter) <= used
  {
  }

  lemma RefundLeast(used: nat, counter: nat)
    ensures RefundOf(used, counter) == if counter < used / 2 then counter else used / 2
  {
  }

  lemma CreditNonNegative(s: State, a: Addr, amount: nat)
    requires NonNegative(s.accounts)
    ensures NonNegative(Credit(s, a, amount).accounts)
  {
  }

  lemma Split(total: nat, left: nat, refund: nat, price: nat)
    requires left + refund <= total
    ensures left * price + refund * price + (total - (left + refund)) * price == total * price
  {
  }

  /** Three credits to possibly the same accounts. */
  lemma CreditThrice(s: State, a: Addr, b: Addr, x: nat, y: nat, z: nat)
    ensures var t := Credit(Credit(Credit(s, a, x), a, y), b, z);
            && Supply(t) == Supply(s) + x + y + z && t.burnt == s.burnt
            && (NonNegative(s.accounts) ==> NonNegative(t.accounts))
  {
    CreditSupply(s, a, x);
    CreditSupply(Credit(s, a, x), a, y);
    CreditSupply(Credit(Credit(s, a, x), a, y), b, z);
    if NonNegative(s.accounts) {
      CreditNonNegative(s, a, x);
      CreditNonNegative(Credit(s, a, x), a, y);
      CreditNonNegative(Credit(Credit(s, a, x), a, y), b, z);
    }
  }

  /** Settling gives back, refunds and pays out exactly what was bought. */
  lemma SettleKept(r: Result, msg: Message, coinbase: Addr, pool: nat)
    requires r.gas <= msg.gas
    ensures var o := Settle(r, msg, coinbase, pool);
            && Supply(o.state) == Supply(r.state) + msg.gas * msg.gasPrice
            && o.state.burnt == r.state.burnt
            && o.pool + o.usedGas == pool + msg.gas
            && 2 * o.usedGas >= msg.gas - r.gas
            && (NonNegative(r.state.accounts) ==> NonNegative(o.state.accounts))
  {
    var refund := RefundOf(msg.gas - r.gas, r.state.refund);
    RefundHalf(msg.gas - r.gas, r.state.refund);
    Split(msg.gas, r.gas, refund, msg.gasPrice);
    var used: nat := msg.gas - (r.gas + refund);
    ThreeParts(r.state, msg, coinbase, r.gas * msg.gasPrice, refund * msg.gasPrice, used * msg.gasPrice);
  }

  lemma ThreeParts(s: State, msg: Message, coinbase: Addr, x: int, y: int, z: int)
    requires x >= 0 && y >= 0 && z >= 0 && x + y + z == msg.gas * msg.gasPrice
    ensures var t := Credit(Credit(Credit(s, msg.from, x), msg.from, y), coinbase, z);
            && Supply(t) == Supply(s) + msg.gas * msg.gasPrice && t.burnt == s.burnt
            && (NonNegative(s.accounts) ==> NonNegative(t.accounts))
  {
    CreditThrice(s, msg.from, coinbase, x, y, z);
  }

  /** Settling credits the sender with the gas left and the coinbase with the gas
      used, at the message's price, and no other account. */
  lemma SettlePays(r: Result, msg: Message, coinbase: Addr, pool: nat, a: Addr)
    requires r.gas <= msg.gas
    ensures var o := Settle(r, msg, coinbase, pool);
            && BalanceOf(o.state.accounts, a) == BalanceOf(r.state.accounts, a)
                 + (if a == msg.from then (msg.gas - o.usedGas) * msg.gasPrice else 0)
                 + (if a == coinbase then o.usedGas * msg.gasPrice else 0)
            && NonceOf(o.state.accounts, a) == NonceOf(r.state.accounts, a)
  {
    var refund := RefundOf(msg.gas - r.gas, r.state.refund);
    RefundHalf(msg.gas - r.gas, r.state.refund);
    SumTimes(r.gas, refund, msg.gasPrice);
  }

  lemma SumTimes(x: int, y: int, p: int)
    ensures x * p + y * p == (x + y) * p
  {
  }

  /** What spending bought gas successfully comes to. */
  ghost predicate SpentWell(s: State, pool: nat, msg: Message, script: Script, o: Outcome) {
    && Supply(o.state) == Supply(s) + msg.gas * msg.gasPrice
    && (CleanScript(msg, script) ==> o.state.burnt == s.burnt)
    && Sound(s, o.state)
    && o.pool + o.usedGas == pool + msg.gas
    && 2 * o.usedGas >= IntrinsicGas(msg.data) >= TX_GAS
  }

  lemma SpentKept(s: State, pool: nat, msg: Message, coinbase: Addr, script: Script)
    requires Spent(s, pool, msg, coinbase, script).error.None?
    ensures SpentWell(s, pool, msg, script, Spent(s, pool, msg, coinbase, script))
  {
    var gas: nat := msg.gas - IntrinsicGas(msg.data);
    ExecuteKept(s, msg, gas, script);
    SettledWell(s, pool, msg, coinbase, script, gas, Execute(s, msg, gas, script));
  }

  lemma SettledWell(s: State, pool: nat, msg: Message, coinbase: Addr, script: Script, gas: nat, r: Result)
    requires gas == msg.gas - IntrinsicGas(msg.data) && Kept(s, gas, CleanScript(msg, script), r)
    ensures SpentWell(s, pool, msg, script, Settle(r, msg, coinbase, pool))
  {
    SettleKept(r, msg, coinbase, pool);
    IntrinsicAtLeast(msg.data);
  }

  lemma ChargedKept(s: State, msg: Message)
    ensures Supply(Charged(s, msg)) == Supply(s) - msg.gas * msg.gasPrice
    ensures NonNegative(s.accounts) && BalanceOf(s.accounts, msg.from) >= msg.gas * msg.gasPrice ==>
            NonNegative(Charged(s, msg).accounts)
  {
    CreditSupply(s, msg.from, -(msg.gas * msg.gasPrice));
  }

  lemma PurchaseKept(s: State, pool: nat, msg: Message)
    requires PreError(WithSender(s, msg.from), pool, msg).None?
    ensures var s1 := Charged(WithSender(s, msg.from), msg);
            && Supply(s1) == Supply(s) - msg.gas * msg.gasPrice && s1.burnt == s.burnt
            && (NonNegative(s.accounts) ==> NonNegative(s1.accounts))
            && msg.gas <= pool
  {
    WithSenderKept(s, msg.from);
    ChargedKept(WithSender(s, msg.from), msg);
  }

  /** A successful transaction conserves ether, whatever the nested calls do and
      however sender, recipient and coinbase coincide: the sum of balances never
      grows, and falls exactly by what accounts that destroy themselves in their
      own favour take out of circulation. */
  lemma TransitionConserves(s: State, pool: nat, msg: Message, coinbase: Addr, script: Script)
    requires Transition(s, pool, msg, coinbase, script).error.None?
    ensures var o := Transition(s, pool, msg, coinbase, script);
            && Total(o.state.accounts) + (o.state.burnt - s.burnt) == Total(s.accounts)
            && (CleanScript(msg, script) ==> Total(o.state.accounts) == Total(s.accounts))
            && Sound(s, o.state)
            && (NonNegative(s.accounts) ==> Total(o.state.accounts) <= Total(s.accounts))
            && (Total(o.state.accounts) == Total(s.accounts) <==> o.state.burnt == s.burnt)
  {
    PurchaseKept(s, pool, msg);
    SpentKept(Charged(WithSender(s, msg.from), msg), pool - msg.gas, msg, coinbase, script);
  }

  /** A successful transaction uses at least half its intrinsic gas, and what it
      does not use returns to the pool. */
  lemma TransitionGas(s: State, pool: nat, msg: Message, coinbase: Addr, script: Script)
    requires Transition(s, pool, msg, coinbase, script).error.None?
    ensures var o := Transition(s, pool, msg, coinbase, script);
            && o.pool + o.usedGas == pool && o.usedGas <= msg.gas
            && 2 * o.usedGas >= IntrinsicGas(msg.data) >= TX_GAS
  {
    PurchaseKept(s, pool, msg);
    SpentKept(Charged(WithSender(s, msg.from), msg), pool - msg.gas, msg, coinbase, script);
  }

  lemma IntrinsicAtLeast(data: seq<nat>)
    ensures IntrinsicGas(data) >= TX_GAS
  {
  }

  /** The price of a message's data: 21000, and 4 for each zero and 68 for each
      other byte, wherever they stand. */
  lemma {:induction false} IntrinsicAdds(data: seq<nat>, more: seq<nat>)
    ensures IntrinsicGas([]) == 21000
    ensures IntrinsicGas(data + more) == IntrinsicGas(data) + IntrinsicGas(more) - 21000
    ensures forall b: nat :: IntrinsicGas([b]) == 21000 + if b == 0 then 4 else 68
    decreases |more|
  {
    if more == [] {
      assert data + more == data;
    } else {
      var init := more[..|more| - 1];
      assert (data + more)[..|data + more| - 1] == data + init;
      IntrinsicAdds(data, init);
    }
  }

  function Recipient(msg: Message, script: Script): Addr {
    if msg.to.Some? then msg.to.value else script.created
  }

  /** What straight code leaves: whether it has the gas, the code installed by a
      creation, the gas spent and the refund counter. */
  datatype Bill = Bill(fits: bool, code: nat, spent: nat, counter: nat)

  function BillOf(s: State, msg: Message, script: Script): Bill
    requires Straight(script.body)
  {
    var room := msg.gas - IntrinsicGas(msg.data);
    var cost, size := CostOf(script.body), SizeOf(script.body);
    if room < cost then Bill(false, 0, msg.gas, s.refund)
    else
      var code := if msg.to.None? && 200 * size <= room - cost then size else 0;
      Bill(true, code, IntrinsicGas(msg.data) + cost + 200 * code, s.refund + RefundsOf(script.body))
  }

  /** A successful transaction whose code makes no calls, whether it is a call or a
      creation, and whether or not its code runs out of gas: the gas it uses and
      every balance and nonce afterwards, however sender, recipient and coinbase
      coincide. The refund is the counter or half of what was spent, whichever is
      less. */
  lemma StraightMessage(s: State, pool: nat, msg: Message, coinbase: Addr, script: Script, a: Addr, o: Outcome)
    requires Straight(script.body) && (msg.to.None? ==> script.created != msg.from)
    requires o == Transition(s, pool, msg, coinbase, script) && o.error.None?
    ensures var bill := BillOf(s, msg, script);
            var value := if bill.fits then msg.value else 0;
            && o.usedGas == bill.spent - (if bill.counter < bill.spent / 2 then bill.counter else bill.spent / 2)
            && BalanceOf(o.state.accounts, a) == BalanceOf(s.accounts, a)
                 - (if a == msg.from then value + o.usedGas * msg.gasPrice else 0)
                 + (if a == Recipient(msg, script) then value else 0)
                 + (if a == coinbase then o.usedGas * msg.gasPrice else 0)
            && NonceOf(o.state.accounts, a) ==
                 if bill.fits && msg.to.None? && a == script.created then 0
                 else NonceOf(s.accounts, a) + if a == msg.from then 1 else 0
  {
    var s0 := WithSender(s, msg.from);
    var s1 := Charged(s0, msg);
    SucceedsIff(s, pool, msg, coinbase, script);
    StraightSpent(s1, pool - msg.gas, msg, coinbase, script, a, o);
    ChargedAt(s, msg, a);
    SumTimes(msg.gas - o.usedGas, o.usedGas, msg.gasPrice);
  }

  lemma ChargedAt(s: State, msg: Message, a: Addr)
    ensures var s1 := Charged(WithSender(s, msg.from), msg);
            && BalanceOf(s1.accounts, a) == BalanceOf(s.accounts, a) - (if a == msg.from then msg.gas * msg.gasPrice else 0)
            && NonceOf(s1.accounts, a) == NonceOf(s.accounts, a) && s1.refund == s.refund
  {
  }

  lemma StraightSpent(s: State, pool: nat, msg: Message, coinbase: Addr, script: Script, a: Addr, o: Outcome)
    requires Straight(script.body) && (msg.to.None? ==> script.created != msg.from)
    requires IntrinsicGas(msg.data) <= msg.gas && BalanceOf(s.accounts, msg.from) >= msg.value
    requires o == Spent(s, pool, msg, coinbase, script) && o.error.None?
    ensures var bill := BillOf(s, msg, script);
            var value := if bill.fits then msg.value else 0;
            && o.usedGas == bill.spent - (if bill.counter < bill.spent / 2 then bill.counter else bill.spent / 2)
            && BalanceOf(o.state.accounts, a) == BalanceOf(s.accounts, a)
                 - (if a == msg.from then value else 0) + (if a == Recipient(msg, script) then value else 0)
                 + (if a == msg.from then (msg.gas - o.usedGas) * msg.gasPrice else 0)
                 + (if a == coinbase then o.usedGas * msg.gasPrice else 0)
            && NonceOf(o.state.accounts, a) ==
                 if bill.fits && msg.to.None? && a == script.created then 0
                 else NonceOf(s.accounts, a) + if a == msg.from then 1 else 0
  {
    var gas: nat := msg.gas - IntrinsicGas(msg.data);
    var r := Execute(s, msg, gas, script);
    StraightExecute(s, msg, gas, script, a, r);
    SettlePays(r, msg, coinbase, pool, a);
    RefundLeast(msg.gas - r.gas, r.state.refund);
  }

  /** The part of it that runs the code. */
  ghost predicate StraightRun(s: State, msg: Message, script: Script, a: Addr, r: Result)
    requires Straight(script.body)
  {
    var bill := BillOf(s, msg, script);
    var value := if bill.fits then msg.value else 0;
    && r.error != Some(ValueTransferError) && r.gas == msg.gas - bill.spent && r.state.refund == bill.counter
    && BalanceOf(r.state.accounts, a) == BalanceOf(s.accounts, a)
         - (if a == msg.from then value else 0) + (if a == Recipient(msg, script) then value else 0)
    && NonceOf(r.state.accounts, a) ==
         if bill.fits && msg.to.None? && a == script.created then 0
         else NonceOf(s.accounts, a) + if a == msg.from then 1 else 0
  }

  lemma StraightExecute(s: State, msg: Message, gas: nat, script: Script, a: Addr, r: Result)
    requires Straight(script.body) && (msg.to.None? ==> script.created != msg.from)
    requires msg.gas == IntrinsicGas(msg.data) + gas && BalanceOf(s.accounts, msg.from) >= msg.value
    requires r == Execute(s, msg, gas, script)
    ensures StraightRun(s, msg, script, a, r)
  {
    match msg.to
    case None =>
      StraightCreate(s, msg, gas, script, a, Exec(s, msg.from, New(script.created), msg.value, gas, 0, script.body), r);
    case Some(to) =>
      var bumped := SetNonce(s.accounts, msg.from, NonceOf(s.accounts, msg.from) + 1);
      BumpedAt(s.accounts, msg.from, to, a, Opened(bumped, At(to)));
      StraightCall(s, s.(accounts := Opened(bumped, At(to))), msg, gas, script, a, r);
  }

  lemma BumpedAt(m: Accounts, from: Addr, to: Addr, a: Addr, m': Accounts)
    requires m' == Opened(SetNonce(m, from, NonceOf(m, from) + 1), At(to))
    ensures forall b: Addr :: BalanceOf(m', b) == BalanceOf(m, b)
    ensures NonceOf(m', a) == NonceOf(m, a) + if a == from then 1 else 0
  {
    OpenedTotal(SetNonce(m, from, NonceOf(m, from) + 1), At(to));
  }

  lemma StraightCreate(s: State, msg: Message, gas: nat, script: Script, a: Addr, x: Result, r: Result)
    requires Straight(script.body) && msg.to.None? && script.created != msg.from
    requires msg.gas == IntrinsicGas(msg.data) + gas && BalanceOf(s.accounts, msg.from) >= msg.value
    requires x == Exec(s, msg.from, New(script.created), msg.value, gas, 0, script.body) && r == Deposit(x, script.created)
    ensures StraightRun(s, msg, script, a, r)
  {
    CreateStraight(s, msg.from, script.created, msg.value, gas, 0, script.body, x, r);
  }

  lemma StraightCall(s: State, s1: State, msg: Message, gas: nat, script: Script, a: Addr, r: Result)
    requires Straight(script.body) && msg.to.Some?
    requires msg.gas == IntrinsicGas(msg.data) + gas && BalanceOf(s.accounts, msg.from) >= msg.value
    requires s1.refund == s.refund && (forall b: Addr :: BalanceOf(s1.accounts, b) == BalanceOf(s.accounts, b))
    requires NonceOf(s1.accounts, a) == NonceOf(s.accounts, a) + if a == msg.from then 1 else 0
    requires r == Exec(s1, msg.from, At(msg.to.value), msg.value, gas, 0, script.body)
    ensures StraightRun(s, msg, script, a, r)
  {
    ExecStraight(s1, msg.from, msg.to.value, msg.value, gas, 0, script.body, r);
  }

  /** The script creates no contract at the sender's own address. */
  predicate SparesSender(msg: Message, script: Script) {
    (msg.to.None? ==> script.created != msg.from) && !Creates(script.body, msg.from)
  }

  lemma ExecuteSteady(s: State, msg: Message, gas: nat, script: Script, a: Addr, r: Result)
    requires r == Execute(s, msg, gas, script) && BalanceOf(s.accounts, msg.from) >= msg.value
    ensures Steady(s, r.state, a, (msg.to.None? && script.created == a) || Creates(script.body, a),
                   Destroys(Recipient(msg, script), script.body, a))
    ensures a == msg.from && SparesSender(msg, script) ==> NonceOf(r.state.accounts, a) >= NonceOf(s.accounts, a) + 1
  {
    match msg.to
    case None =>
      ExecSteady(s, msg.from, New(script.created), msg.value, gas, 0, script.body, a,
                 Exec(s, msg.from, New(script.created), msg.value, gas, 0, script.body));
    case Some(to) =>
      var bumped := SetNonce(s.accounts, msg.from, NonceOf(s.accounts, msg.from) + 1);
      var s1 := s.(accounts := Opened(bumped, At(to)));
      assert NonceOf(s1.accounts, a) == NonceOf(bumped, a);
      ExecSteady(s1, msg.from, At(to), msg.value, gas, 0, script.body, a, r);
  }

  lemma SettleSteady(r: Result, msg: Message, coinbase: Addr, pool: nat, a: Addr)
    requires r.gas <= msg.gas
    ensures var o := Settle(r, msg, coinbase, pool);
            NonceOf(o.state.accounts, a) == NonceOf(r.state.accounts, a) && (Unmarked(r.state, a) ==> Unmarked(o.state, a))
  {
  }

  /** A successful transaction raises its sender's nonce, lowers no nonce but where
      it creates a contract, and marks no account that does not destroy itself. */
  lemma NonceRises(s: State, pool: nat, msg: Message, coinbase: Addr, script: Script, a: Addr, o: Outcome)
    requires o == Transition(s, pool, msg, coinbase, script) && o.error.None?
    ensures Steady(s, o.state, a, (msg.to.None? && script.created == a) || Creates(script.body, a),
                   Destroys(Recipient(msg, script), script.body, a))
    ensures NonceOf(s.accounts, msg.from) == msg.nonce
    ensures SparesSender(msg, script) ==> NonceOf(o.state.accounts, msg.from) >= msg.nonce + 1
  {
    SucceedsIff(s, pool, msg, coinbase, script);
    var s1 := Charged(WithSender(s, msg.from), msg);
    ChargedAt(s, msg, a);
    ChargedAt(s, msg, msg.from);
    SpentSteady(s1, pool - msg.gas, msg, coinbase, script, a, o);
    SpentSteady(s1, pool - msg.gas, msg, coinbase, script, msg.from, o);
  }

  lemma SpentSteady(s: State, pool: nat, msg: Message, coinbase: Addr, script: Script, a: Addr, o: Outcome)
    requires o == Spent(s, pool, msg, coinbase, script) && o.error.None?
    requires IntrinsicGas(msg.data) <= msg.gas && BalanceOf(s.accounts, msg.from) >= msg.value
    ensures Steady(s, o.state, a, (msg.to.None? && script.created == a) || Creates(script.body, a),
                   Destroys(Recipient(msg, script), script.body, a))
    ensures a == msg.from && SparesSender(msg, script) ==> NonceOf(o.state.accounts, a) >= NonceOf(s.accounts, a) + 1
  {
    var gas: nat := msg.gas - IntrinsicGas(msg.data);
    var r := Execute(s, msg, gas, script);
    ExecuteKept(s, msg, gas, script);
    ExecuteSteady(s, msg, gas, script, a, r);
    SettleSteady(r, msg, coinbase, pool, a);
  }

  /** So the same message is refused the next time, whoever mines it and whatever
      its code would do. */
  lemma ReplayRefused(s: State, pool: nat, msg: Message, coinbase: Addr, script: Script, pool': nat, coinbase': Addr, script': Script)
    requires Transition(s, pool, msg, coinbase, script).error.None? && SparesSender(msg, script)
    ensures var o := Transition(s, pool, msg, coinbase, script);
            Transition(o.state, pool', msg, coinbase', script').error == Some(NonceMismatch)
  {
    NonceRises(s, pool, msg, coinbase, script, msg.from, Transition(s, pool, msg, coinbase, script));
  }

  /** A call that makes the recipient destroy itself in its own favour: the sum of
      balances falls by all the recipient then had. */
  lemma SelfDestructionBurns(s: State, pool: nat, msg: Message, coinbase: Addr, script: Script)
    requires msg.to.Some? && msg.to.value != msg.from && script.body == Destroy(msg.to.value)
    requires Transition(s, pool, msg, coinbase, script).error.None?
    ensures var o := Transition(s, pool, msg, coinbase, script);
            && o.state.burnt == s.burnt + BalanceOf(s.accounts, msg.to.value) + msg.value
            && Total(o.state.accounts) == Total(s.accounts) - (BalanceOf(s.accounts, msg.to.value) + msg.value)
  {
    TransitionConserves(s, pool, msg, coinbase, script);
    var s1 := Charged(WithSender(s, msg.from), msg);
    var gas: nat := msg.gas - IntrinsicGas(msg.data);
    ExecuteBurns(s1, msg, gas, script);
    SettleKept(Execute(s1, msg, gas, script), msg, coinbase, pool - msg.gas);
  }

  lemma ExecuteBurns(s: State, msg: Message, gas: nat, script: Script)
    requires msg.to.Some? && msg.to.value != msg.from && script.body == Destroy(msg.to.value)
    requires BalanceOf(s.accounts, msg.from) >= msg.value
    ensures var r := Execute(s, msg, gas, script);
            r.gas == gas && r.state.burnt == s.burnt + BalanceOf(s.accounts, msg.to.value) + msg.value
  {
    var to := msg.to.value;
    var bumped := SetNonce(s.accounts, msg.from, NonceOf(s.accounts, msg.from) + 1);
    var m := Opened(bumped, At(to));
    OpenedTotal(bumped, At(to));
    TransferMoves(m, msg.from, to, msg.value, to);
    ExecDestroys(s.(accounts := m), msg.from, to, msg.value, gas);
  }

  lemma ExecDestroys(s: State, caller: Addr, to: Addr, value: nat, gas: nat)
    requires to in s.accounts && BalanceOf(s.accounts, caller) >= value
    ensures Exec(s, caller, At(to), value, gas, 0, Destroy(to)) ==
            Result(Suicide(s.(accounts := Transfer(s.accounts, caller, to, value)), to, to), gas, None, 0)
  {
  }

  /** The sum of balances does fall: an account with balance 7 destroys itself. */
  lemma BurnExample(s: State, pool: nat, msg: Message, coinbase: Addr, script: Script)
    requires s == State(map[1 := Account(21000, 0, 0, false), 2 := Account(7, 0, 1, false)], 0, 0) && pool == 21000
    requires msg == Message(1, Some(2), 1, 21000, 0, 0, []) && script == Script(0, Destroy(2))
    ensures var o := Transition(s, pool, msg, coinbase, script);
            && o.error.None? && NonNegative(s.accounts)
            && Total(s.accounts) == 21007 && Total(o.state.accounts) == 21000 && o.state.burnt == 7
  {
    SucceedsIff(s, pool, msg, coinbase, script);
    SelfDestructionBurns(s, pool, msg, coinbase, script);
    TotalOfTwo(s.accounts, 1, 2);
  }

  lemma TotalOfTwo(m: Accounts, a: Addr, b: Addr)
    requires m.Keys == {a, b} && a != b
    ensures Total(m) == m[a].balance + m[b].balance
  {
    TotalWithout(m, a);
    TotalWithout(m - {a}, b);
    assert m - {a} - {b} == map[];
  }

  /** A failed transaction is not rolled back: once the gas is bought, sender and
      pool have lost all of it. It conserves ether exactly when the gas was not
      bought or cost nothing. */
  lemma FailureLoses(s: State, pool: nat, msg: Message, coinbase: Addr, script: Script)
    requires Transition(s, pool, msg, coinbase, script).error.Some?
    ensures var o := Transition(s, pool, msg, coinbase, script);
            && Supply(o.state) == Supply(s) - (if Paid(o.error) then msg.gas * msg.gasPrice else 0)
            && o.pool == pool - (if Paid(o.error) then msg.gas else 0)
            && o.state.burnt == s.burnt
            && (Total(o.state.accounts) == Total(s.accounts) <==> !Paid(o.error) || msg.gas * msg.gasPrice == 0)
  {
    WithSenderKept(s, msg.from);
    if PreError(WithSender(s, msg.from), pool, msg).None? {
      PurchaseKept(s, pool, msg);
      SpentFails(Charged(WithSender(s, msg.from), msg), pool - msg.gas, msg, coinbase, script);
    }
  }

  lemma SpentFails(s: State, pool: nat, msg: Message, coinbase: Addr, script: Script)
    requires Spent(s, pool, msg, coinbase, script).error.Some?
    ensures var o := Spent(s, pool, msg, coinbase, script);
            Paid(o.error) && Supply(o.state) == Supply(s) && o.state.burnt == s.burnt && o.pool == pool
  {
    if msg.gas >= IntrinsicGas(msg.data) {
      ExecuteFails(s, msg, msg.gas - IntrinsicGas(msg.data), script);
    }
  }

  /** All that a failed transaction leaves behind: the sender's account, the price of
      bought gas missing from it, and, when a call could not move its value, the
      recipient's account and the sender's new nonce. */
  lemma FailureExact(s: State, pool: nat, msg: Message, coinbase: Addr, script: Script, a: Addr, o: Outcome)
    requires o == Transition(s, pool, msg, coinbase, script) && o.error.Some?
    ensures var called := o.error == Some(CannotTransfer) && msg.to.Some?;
            && o.usedGas == 0 && o.state.refund == s.refund
            && o.state.accounts.Keys == s.accounts.Keys + {msg.from} + (if called then {msg.to.value} else {})
            && BalanceOf(o.state.accounts, a) ==
                 BalanceOf(s.accounts, a) - (if a == msg.from && Paid(o.error) then msg.gas * msg.gasPrice else 0)
            && NonceOf(o.state.accounts, a) == NonceOf(s.accounts, a) + if a == msg.from && called then 1 else 0
  {
    var s0 := WithSender(s, msg.from);
    if PreError(s0, pool, msg).None? {
      ChargedAt(s, msg, a);
      SpentLeaves(Charged(s0, msg), pool - msg.gas, msg, coinbase, script, a, o);
    }
  }

  lemma SpentLeaves(s: State, pool: nat, msg: Message, coinbase: Addr, script: Script, a: Addr, o: Outcome)
    requires o == Spent(s, pool, msg, coinbase, script) && o.error.Some?
    ensures var called := o.error == Some(CannotTransfer) && msg.to.Some?;
            && Paid(o.error) && o.usedGas == 0 && o.state.refund == s.refund
            && o.state.accounts.Keys == s.accounts.Keys + (if called then {msg.from, msg.to.value} else {})
            && BalanceOf(o.state.accounts, a) == BalanceOf(s.accounts, a)
            && NonceOf(o.state.accounts, a) == NonceOf(s.accounts, a) + if a == msg.from && called then 1 else 0
  {
    if msg.gas >= IntrinsicGas(msg.data) {
      ExecuteRefusedLeaves(s, msg, msg.gas - IntrinsicGas(msg.data), script, a);
    }
  }

  lemma ExecuteRefusedLeaves(s: State, msg: Message, gas: nat, script: Script, a: Addr)
    ensures Execute(s, msg, gas, script).error == Some(ValueTransferError) ==>
            var s' := Execute(s, msg, gas, script).state;
            && s'.refund == s.refund
            && BalanceOf(s'.accounts, a) == BalanceOf(s.accounts, a)
            && NonceOf(s'.accounts, a) == NonceOf(s.accounts, a) + (if a == msg.from && msg.to.Some? then 1 else 0)
            && s'.accounts.Keys == s.accounts.Keys + if msg.to.Some? then {msg.from, msg.to.value} else {}
  {
    ExecuteRefused(s, msg, gas, script);
    match msg.to
    case None =>
    case Some(to) =>
      var bumped := SetNonce(s.accounts, msg.from, NonceOf(s.accounts, msg.from) + 1);
      OpenedTotal(bumped, At(to));
  }

  /** Which error a transaction ends with, in terms of the state before it. */
  lemma ErrorIs(s: State, pool: nat, msg: Message, coinbase: Addr, script: Script)
    ensures var e, balance := Transition(s, pool, msg, coinbase, script).error, BalanceOf(s.accounts, msg.from);
            if NonceOf(s.accounts, msg.from) != msg.nonce then e == Some(NonceMismatch)
            else if balance < msg.gas * msg.gasPrice then e == Some(InsufficientForGas)
            else if pool < msg.gas then e == Some(PoolExhausted)
            else if msg.gas < IntrinsicGas(msg.data) then e == Some(IntrinsicOutOfGas)
            else if balance - msg.gas * msg.gasPrice < msg.value then e == Some(CannotTransfer)
            else e.None?
  {
    var s1 := Charged(WithSender(s, msg.from), msg);
    if msg.gas >= IntrinsicGas(msg.data) {
      ExecuteRefused(s1, msg, msg.gas - IntrinsicGas(msg.data), script);
    }
  }

  /** When the gas is lost, told before the transaction runs: it could be bought,
      but does not cover the intrinsic cost, or what it leaves of the balance
      does not cover the value. */
  lemma PaidIff(s: State, pool: nat, msg: Message, coinbase: Addr, script: Script)
    ensures var balance := BalanceOf(s.accounts, msg.from);
            Paid(Transition(s, pool, msg, coinbase, script).error) <==>
              && NonceOf(s.accounts, msg.from) == msg.nonce
              && msg.gas * msg.gasPrice <= balance && msg.gas <= pool
              && (msg.gas < IntrinsicGas(msg.data) || balance < msg.gas * msg.gasPrice + msg.value)
  {
    var s1 := Charged(WithSender(s, msg.from), msg);
    if msg.gas >= IntrinsicGas(msg.data) {
      ExecuteRefused(s1, msg, msg.gas - IntrinsicGas(msg.data), script);
    }
  }

  /** When a transaction succeeds. */
  lemma SucceedsIff(s: State, pool: nat, msg: Message, coinbase: Addr, script: Script)
    ensures Transition(s, pool, msg, coinbase, script).error.None? <==>
              && NonceOf(s.accounts, msg.from) == msg.nonce
              && msg.gas * msg.gasPrice + msg.value <= BalanceOf(s.accounts, msg.from)
              && IntrinsicGas(msg.data) <= msg.gas <= pool
  {
    var s1 := Charged(WithSender(s, msg.from), msg);
    if msg.gas >= IntrinsicGas(msg.data) {
      ExecuteRefused(s1, msg, msg.gas - IntrinsicGas(msg.data), script);
    }
  }

  /** A sender who offers 100 gas for a bare transaction loses it. */
  lemma PaidExample(s: State, msg: Message, script: Script)
    requires s == State(map[1 := Account(500, 0, 0, false)], 0, 0)
    requires msg == Message(1, Some(2), 1, 100, 0, 0, [])
    ensures var o := Transition(s, 21000, msg, 3, script);
            o.error == Some(IntrinsicOutOfGas) && BalanceOf(o.state.accounts, 1) == 400 && o.pool == 20900
  {
  }

  /** Only a sender who cannot afford the value is refused. */
  lemma ExecuteRefused(s: State, msg: Message, gas: nat, script: Script)
    ensures Execute(s, msg, gas, script).error == Some(ValueTransferError) <==>
            BalanceOf(s.accounts, msg.from) < msg.value
  {
    match msg.to
    case None => TransferErrorIff(s, msg.from, New(script.created), msg.value, gas, 0, script.body);
    case Some(to) =>
      var bumped := SetNonce(s.accounts, msg.from, NonceOf(s.accounts, msg.from) + 1);
      OpenedTotal(bumped, At(to));
      TransferErrorIff(s.(accounts := Opened(bumped, At(to))), msg.from, At(to), msg.value, gas, 0, script.body);
  }

  lemma TransferErrorIff(s: State, caller: Addr, t: Target, value: nat, gas: nat, depth: nat, callee: Body)
    ensures Exec(s, caller, t, value, gas, depth, callee).error == Some(ValueTransferError) <==>
            depth <= CALL_CREATE_DEPTH && BalanceOf(s.accounts, caller) < value
  {
    if depth <= CALL_CREATE_DEPTH && BalanceOf(s.accounts, caller) >= value {
      var snapshot := Snapshot(s, caller, t);
      var s1 := snapshot.(accounts := Transfer(Opened(snapshot.accounts, t), caller, t.addr, value));
      RunErrs(s1, t.addr, gas, depth + 1, callee);
    }
  }

  lemma ExecuteFails(s: State, msg: Message, gas: nat, script: Script)
    requires Execute(s, msg, gas, script).error == Some(ValueTransferError)
    ensures Supply(Execute(s, msg, gas, script).state) == Supply(s)
    ensures Execute(s, msg, gas, script).state.burnt == s.burnt
  {
    ExecuteKept(s, msg, gas, script);
    match msg.to
    case None => TransferErrorIff(s, msg.from, New(script.created), msg.value, gas, 0, script.body);
    case Some(to) =>
      var bumped := SetNonce(s.accounts, msg.from, NonceOf(s.accounts, msg.from) + 1);
      TransferErrorIff(s.(accounts := Opened(bumped, At(to))), msg.from, At(to), msg.value, gas, 0, script.body);
  }

  lemma {:induction false} RunErrs(s: State, self: Addr, gas: nat, depth: nat, b: Body)
    ensures Run(s, self, gas, depth, b).error != Some(ValueTransferError)
    decreases b
  {
    match b
    case Return(_) =>
    case Fault =>
    case Destroy(_) =>
    case Spend(cost, rest) => if gas >= cost { RunErrs(s, self, gas - cost, depth, rest); }
    case AddRefund(amount, rest) => RunErrs(s.(refund := s.refund + amount), self, gas, depth, rest);
    case CallTo(to, g, value, callee, rest) =>
      var cost := g + NewAccountGas(s, to) + ValueGas(value);
      if gas >= cost {
        var r := Exec(s, self, At(to), value, g + Stipend(value), depth, callee);
        RunErrs(r.state, self, gas - cost + r.gas, depth, rest);
      }
    case CallCodeOf(g, value, callee, rest) =>
      var cost := g + ValueGas(value);
      if gas >= cost {
        var r := Exec(s, self, At(self), value, g + Stipend(value), depth, callee);
        RunErrs(r.state, self, gas - cost + r.gas, depth, rest);
      }
    case CreateAt(addr, value, callee, rest) =>
      var r := Deposit(Exec(s, self, New(addr), value, gas, depth, callee), addr);
      RunErrs(r.state, self, r.gas, depth, rest);
  }
}
