/** Calls and creations of core/execution.go over an arbitrary virtual machine
    body: a tree of gas costs, refunds, nested calls and creations, which ends by
    returning, by self-destructing or by failing. */
module Execution {
  import opened Wrappers
  import opened WorldState

  datatype Error = DepthError | ValueTransferError | VmError

  const CALL_CREATE_DEPTH := 1024
  const CALL_NEW_ACCOUNT_GAS := 25000
  const CALL_VALUE_TRANSFER_GAS := 9000
  const CALL_STIPEND := 2300
  const CREATE_DATA_GAS := 200

  datatype Body =
    | Return(size: nat)
    | Fault
    | Destroy(to: Addr)
    | Spend(cost: nat, rest: Body)
    | AddRefund(amount: nat, rest: Body)
    | CallTo(to: Addr, gas: nat, value: nat, callee: Body, rest: Body)
    | CallCodeOf(gas: nat, value: nat, callee: Body, rest: Body)
    | CreateAt(addr: Addr, value: nat, callee: Body, rest: Body)

  /** Where a call goes: to an address, or to the address derived for a new
      contract. */
  datatype Target = At(addr: Addr) | New(addr: Addr)

  /** `gas` is what is left and goes back to the caller; `size` is the length of
      the returned data. */
  datatype Result = Result(state: State, gas: nat, error: Option<Error>, size: nat)

  function Transfer(m: Accounts, from: Addr, to: Addr, amount: int): Accounts {
    AddBalance(AddBalance(m, from, -amount), to, amount)
  }

  /** The account of the target, created where the code creates it. */
  function Opened(m: Accounts, t: Target): Accounts {
    if t.New? || t.addr !in m then CreateAccount(m, t.addr) else m
  }

  /** The state to which a failed call returns: creation has bumped the
      creator's nonce for good. */
  function Snapshot(s: State, caller: Addr, t: Target): State {
    if t.New? then s.(accounts := SetNonce(s.accounts, caller, NonceOf(s.accounts, caller) + 1)) else s
  }

  /** `exec`. */
  function Exec(s: State, caller: Addr, t: Target, value: nat, gas: nat, depth: nat, callee: Body): Result
    decreases callee, 1
  {
    if depth > CALL_CREATE_DEPTH then Result(s, gas, Some(DepthError), 0)
    else if BalanceOf(s.accounts, caller) < value then Result(s, gas, Some(ValueTransferError), 0)
    else
      var snapshot := Snapshot(s, caller, t);
      var s1 := snapshot.(accounts := Transfer(Opened(snapshot.accounts, t), caller, t.addr, value));
      var r := Run(s1, t.addr, gas, depth + 1, callee);
      if r.error.Some? then r.(state := snapshot) else r
  }

  /** The virtual machine: an error consumes all gas. */
  function Run(s: State, self: Addr, gas: nat, depth: nat, b: Body): Result
    decreases b, 0
  {
    match b
    case Return(size) => Result(s, gas, None, size)
    case Fault => Result(s, 0, Some(VmError), 0)
    case Destroy(to) => Result(Suicide(s, self, to), gas, None, 0)
    case Spend(cost, rest) =>
      if gas < cost then Result(s, 0, Some(VmError), 0) else Run(s, self, gas - cost, depth, rest)
    case AddRefund(amount, rest) => Run(s.(refund := s.refund + amount), self, gas, depth, rest)
    case CallTo(to, g, value, callee, rest) =>
      var cost := g + NewAccountGas(s, to) + ValueGas(value);
      if gas < cost then Result(s, 0, Some(VmError), 0) else
        var r := Exec(s, self, At(to), value, g + Stipend(value), depth, callee);
        Run(r.state, self, gas - cost + r.gas, depth, rest)
    case CallCodeOf(g, value, callee, rest) =>
      var cost := g + ValueGas(value);
      if gas < cost then Result(s, 0, Some(VmError), 0) else
        var r := Exec(s, self, At(self), value, g + Stipend(value), depth, callee);
        Run(r.state, self, gas - cost + r.gas, depth, rest)
    case CreateAt(addr, value, callee, rest) =>
      var r := Deposit(Exec(s, self, New(addr), value, gas, depth, callee), addr);
      Run(r.state, self, r.gas, depth, rest)
  }

  function NewAccountGas(s: State, to: Addr): nat {
    if to in s.accounts then 0 else CALL_NEW_ACCOUNT_GAS
  }

  function ValueGas(value: nat): nat {
    if value > 0 then CALL_VALUE_TRANSFER_GAS else 0
  }

  function Stipend(value: nat): nat {
    if value > 0 then CALL_STIPEND else 0
  }

  /** A successful creation pays for its code by the byte and installs it, or
      installs nothing when the gas does not suffice. */
  function Deposit(r: Result, addr: Addr): Result {
    if r.error.None? && CREATE_DATA_GAS * r.size <= r.gas
    then r.(gas := r.gas - CREATE_DATA_GAS * r.size,
            state := r.state.(accounts := SetCode(r.state.accounts, addr, r.size)))
    else r
  }

  // ---------- failure ----------

  /** The nonce of `a` is one higher, and nothing else differs. */
  ghost predicate NonceRaised(s: State, s': State, a: Addr) {
    && s'.refund == s.refund && s'.burnt == s.burnt && s'.accounts.Keys == s.accounts.Keys + {a}
    && (forall b: Addr :: b in s.accounts && b != a ==> s'.accounts[b] == s.accounts[b])
    && NonceOf(s'.accounts, a) == NonceOf(s.accounts, a) + 1
    && s'.accounts[a].(nonce := 0) == GetOrNew(s.accounts, a).(nonce := 0)
  }

  lemma SnapshotRaises(s: State, caller: Addr, t: Target, s': State)
    requires s' == Snapshot(s, caller, t)
    ensures if t.New? then NonceRaised(s, s', caller) else s' == s
  {
  }

  /** A failed `exec` leaves exactly the state it found, except that a failed
      creation which got past the checks leaves the creator's nonce one higher; past
      the checks all gas is gone. */
  lemma ExecFailRestores(s: State, caller: Addr, t: Target, value: nat, gas: nat, depth: nat, callee: Body, r: Result)
    requires r == Exec(s, caller, t, value, gas, depth, callee) && r.error.Some?
    ensures if depth > 1024 then r.error == Some(DepthError) && r.state == s && r.gas == gas
            else if BalanceOf(s.accounts, caller) < value then r.error == Some(ValueTransferError) && r.state == s && r.gas == gas
            else r.error == Some(VmError) && r.gas == 0 && if t.New? then NonceRaised(s, r.state, caller) else r.state == s
  {
    if depth <= CALL_CREATE_DEPTH && BalanceOf(s.accounts, caller) >= value {
      var snapshot := Snapshot(s, caller, t);
      var s1 := snapshot.(accounts := Transfer(Opened(snapshot.accounts, t), caller, t.addr, value));
      RunFailTakesGas(s1, t.addr, gas, depth + 1, callee, Run(s1, t.addr, gas, depth + 1, callee));
      SnapshotRaises(s, caller, t, snapshot);
    }
  }

  lemma {:induction false} RunFailTakesGas(s: State, self: Addr, gas: nat, depth: nat, b: Body, r: Result)
    requires r == Run(s, self, gas, depth, b)
    ensures r.error.Some? ==> r.error == Some(VmError) && r.gas == 0
    decreases b
  {
    match b
    case Return(_) =>
    case Fault =>
    case Destroy(_) =>
    case Spend(cost, rest) => if gas >= cost { RunFailTakesGas(s, self, gas - cost, depth, rest, r); }
    case AddRefund(amount, rest) => RunFailTakesGas(s.(refund := s.refund + amount), self, gas, depth, rest, r);
    case CallTo(to, g, value, callee, rest) =>
      var cost := g + NewAccountGas(s, to) + ValueGas(value);
      if gas >= cost {
        var r1 := Exec(s, self, At(to), value, g + Stipend(value), depth, callee);
        RunFailTakesGas(r1.state, self, gas - cost + r1.gas, depth, rest, r);
      }
    case CallCodeOf(g, value, callee, rest) =>
      var cost := g + ValueGas(value);
      if gas >= cost {
        var r1 := Exec(s, self, At(self), value, g + Stipend(value), depth, callee);
        RunFailTakesGas(r1.state, self, gas - cost + r1.gas, depth, rest, r);
      }
    case CreateAt(addr, value, callee, rest) =>
      var r1 := Deposit(Exec(s, self, New(addr), value, gas, depth, callee), addr);
      RunFailTakesGas(r1.state, self, r1.gas, depth, rest, r);
  }

  // ---------- conservation ----------

  lemma TransferTotal(m: Accounts, from: Addr, to: Addr, amount: int)
    ensures Total(Transfer(m, from, to, amount)) == Total(m)
  {
    AddBalanceTotal(m, from, -amount);
    AddBalanceTotal(AddBalance(m, from, -amount), to, amount);
  }

  /** A transfer moves the amount between the two accounts, also when they are
      one, and touches no other. */
  lemma TransferMoves(m: Accounts, from: Addr, to: Addr, amount: int, a: Addr)
    ensures BalanceOf(Transfer(m, from, to, amount), a) ==
            BalanceOf(m, a) - (if a == from then amount else 0) + (if a == to then amount else 0)
    ensures NonceOf(Transfer(m, from, to, amount), a) == NonceOf(m, a)
  {
  }

  lemma OpenedTotal(m: Accounts, t: Target)
    ensures Total(Opened(m, t)) == Total(m)
    ensures forall a: Addr :: BalanceOf(Opened(m, t), a) == BalanceOf(m, a)
  {
    CreateAccountTotal(m, t.addr);
  }

  lemma SnapshotSupply(s: State, caller: Addr, t: Target)
    ensures Supply(Snapshot(s, caller, t)) == Supply(s)
    ensures forall a: Addr :: BalanceOf(Snapshot(s, caller, t).accounts, a) == BalanceOf(s.accounts, a)
  {
    SetNonceTotal(s.accounts, caller, NonceOf(s.accounts, caller) + 1);
  }

  /** What every piece of execution keeps: no ether is made, none is lost but what
      is counted as burnt, no balance becomes negative, gas only shrinks, and
      nothing is burnt unless an account destroys itself in its own favour. */
  ghost predicate Kept(s: State, gas: nat, clean: bool, r: Result) {
    && Supply(r.state) == Supply(s)
    && Sound(s, r.state)
    && r.gas <= gas
    && (clean ==> r.state.burnt == s.burnt)
  }

  /** No self-destruct in the tree names its own account. */
  predicate Clean(self: Addr, b: Body)
    decreases b
  {
    match b
    case Return(_) => true
    case Fault => true
    case Destroy(to) => to != self
    case Spend(_, rest) => Clean(self, rest)
    case AddRefund(_, rest) => Clean(self, rest)
    case CallTo(to, _, _, callee, rest) => Clean(to, callee) && Clean(self, rest)
    case CallCodeOf(_, _, callee, rest) => Clean(self, callee) && Clean(self, rest)
    case CreateAt(addr, _, callee, rest) => Clean(addr, callee) && Clean(self, rest)
  }

  lemma NonNegativeByBalance(m: Accounts)
    ensures NonNegative(m) <==> forall a: Addr :: BalanceOf(m, a) >= 0
  {
    assert forall a: Addr :: a in m ==> BalanceOf(m, a) == m[a].balance;
  }

  lemma TransferNonNegative(m: Accounts, from: Addr, to: Addr, amount: nat)
    requires NonNegative(m) && BalanceOf(m, from) >= amount
    ensures NonNegative(Transfer(m, from, to, amount))
  {
  }

  lemma SuicideSound(s: State, a: Addr, to: Addr)
    ensures Sound(s, Suicide(s, a, to))
  {
  }

  lemma DepositKept(s: State, gas: nat, clean: bool, r: Result, addr: Addr)
    requires Kept(s, gas, clean, r)
    ensures Kept(s, gas, clean, Deposit(r, addr))
  {
    SetCodeTotal(r.state.accounts, addr, r.size);
  }

  lemma {:induction false} ExecKept(s: State, caller: Addr, t: Target, value: nat, gas: nat, depth: nat, callee: Body)
    ensures Kept(s, gas, Clean(t.addr, callee), Exec(s, caller, t, value, gas, depth, callee))
    decreases callee, 1
  {
    if depth <= CALL_CREATE_DEPTH && BalanceOf(s.accounts, caller) >= value {
      var snapshot := Snapshot(s, caller, t);
      var ready := Opened(snapshot.accounts, t);
      var s1 := snapshot.(accounts := Transfer(ready, caller, t.addr, value));
      SnapshotSupply(s, caller, t);
      OpenedTotal(snapshot.accounts, t);
      TransferTotal(ready, caller, t.addr, value);
      if NonNegative(s.accounts) {
        NonNegativeByBalance(s.accounts);
        NonNegativeByBalance(snapshot.accounts);
        NonNegativeByBalance(ready);
        TransferNonNegative(ready, caller, t.addr, value);
      }
      RunKept(s1, t.addr, gas, depth + 1, callee);
    }
  }

  lemma {:induction false} RunKept(s: State, self: Addr, gas: nat, depth: nat, b: Body)
    ensures Kept(s, gas, Clean(self, b), Run(s, self, gas, depth, b))
    decreases b, 0
  {
    match b
    case Return(_) =>
    case Fault =>
    case Destroy(to) =>
      SuicideSupply(s, self, to);
      SuicideSound(s, self, to);
    case Spend(cost, rest) => if gas >= cost { RunKept(s, self, gas - cost, depth, rest); }
    case AddRefund(amount, rest) => RunKept(s.(refund := s.refund + amount), self, gas, depth, rest);
    case CallTo(to, g, value, callee, rest) => CallKept(s, self, gas, depth, b, Run(s, self, gas, depth, b));
    case CallCodeOf(g, value, callee, rest) => CallCodeKept(s, self, gas, depth, b, Run(s, self, gas, depth, b));
    case CreateAt(addr, value, callee, rest) =>
      ExecKept(s, self, New(addr), value, gas, depth, callee);
      DepositKept(s, gas, Clean(addr, callee), Exec(s, self, New(addr), value, gas, depth, callee), addr);
      var r := Deposit(Exec(s, self, New(addr), value, gas, depth, callee), addr);
      RunKept(r.state, self, r.gas, depth, rest);
  }

  lemma {:induction false} CallKept(s: State, self: Addr, gas: nat, depth: nat, b: Body, out: Result)
    requires b.CallTo? && out == Run(s, self, gas, depth, b)
    ensures Kept(s, gas, Clean(self, b), out)
    decreases b, -1
  {
    var cost := b.gas + NewAccountGas(s, b.to) + ValueGas(b.value);
    if gas >= cost {
      StipendPaid(b.value);
      ExecKept(s, self, At(b.to), b.value, b.gas + Stipend(b.value), depth, b.callee);
      var r := Exec(s, self, At(b.to), b.value, b.gas + Stipend(b.value), depth, b.callee);
      RunKept(r.state, self, gas - cost + r.gas, depth, b.rest);
      Chained(s, gas, b.gas + Stipend(b.value), Clean(b.to, b.callee), r, gas - cost + r.gas, Clean(self, b.rest), out);
    }
  }

  lemma Chained(s: State, gas: nat, gas1: nat, clean1: bool, r1: Result, gas2: nat, clean2: bool, r2: Result)
    requires Kept(s, gas1, clean1, r1) && Kept(r1.state, gas2, clean2, r2) && gas2 <= gas
    ensures Kept(s, gas, clean1 && clean2, r2)
  {
  }

  lemma {:induction false} CallCodeKept(s: State, self: Addr, gas: nat, depth: nat, b: Body, out: Result)
    requires b.CallCodeOf? && out == Run(s, self, gas, depth, b)
    ensures Kept(s, gas, Clean(self, b), out)
    decreases b, -1
  {
    var cost := b.gas + ValueGas(b.value);
    if gas >= cost {
      StipendPaid(b.value);
      ExecKept(s, self, At(self), b.value, b.gas + Stipend(b.value), depth, b.callee);
      var r := Exec(s, self, At(self), b.value, b.gas + Stipend(b.value), depth, b.callee);
      RunKept(r.state, self, gas - cost + r.gas, depth, b.rest);
      Chained(s, gas, b.gas + Stipend(b.value), Clean(self, b.callee), r, gas - cost + r.gas, Clean(self, b.rest), out);
    }
  }

  /** The stipend is less than what the transfer of value costs. */
  lemma StipendPaid(value: nat)
    ensures Stipend(value) <= ValueGas(value)
  {
  }

  // ---------- accounts stay ----------

  /** Execution never takes an account away. */
  lemma {:induction false} ExecKeepsAccounts(s: State, caller: Addr, t: Target, value: nat, gas: nat, depth: nat, callee: Body)
    ensures s.accounts.Keys <= Exec(s, caller, t, value, gas, depth, callee).state.accounts.Keys
    decreases callee, 1
  {
    if depth <= CALL_CREATE_DEPTH && BalanceOf(s.accounts, caller) >= value {
      var snapshot := Snapshot(s, caller, t);
      var s1 := snapshot.(accounts := Transfer(Opened(snapshot.accounts, t), caller, t.addr, value));
      RunKeepsAccounts(s1, t.addr, gas, depth + 1, callee);
    }
  }

  lemma {:induction false} RunKeepsAccounts(s: State, self: Addr, gas: nat, depth: nat, b: Body)
    ensures s.accounts.Keys <= Run(s, self, gas, depth, b).state.accounts.Keys
    decreases b, 0
  {
    match b
    case Return(_) =>
    case Fault =>
    case Destroy(_) =>
    case Spend(cost, rest) => if gas >= cost { RunKeepsAccounts(s, self, gas - cost, depth, rest); }
    case AddRefund(amount, rest) => RunKeepsAccounts(s.(refund := s.refund + amount), self, gas, depth, rest);
    case CallTo(to, g, value, callee, rest) =>
      var cost := g + NewAccountGas(s, to) + ValueGas(value);
      if gas >= cost {
        ExecKeepsAccounts(s, self, At(to), value, g + Stipend(value), depth, callee);
        var r := Exec(s, self, At(to), value, g + Stipend(value), depth, callee);
        RunKeepsAccounts(r.state, self, gas - cost + r.gas, depth, rest);
      }
    case CallCodeOf(g, value, callee, rest) =>
      var cost := g + ValueGas(value);
      if gas >= cost {
        ExecKeepsAccounts(s, self, At(self), value, g + Stipend(value), depth, callee);
        var r := Exec(s, self, At(self), value, g + Stipend(value), depth, callee);
        RunKeepsAccounts(r.state, self, gas - cost + r.gas, depth, rest);
      }
    case CreateAt(addr, value, callee, rest) =>
      ExecKeepsAccounts(s, self, New(addr), value, gas, depth, callee);
      var r := Deposit(Exec(s, self, New(addr), value, gas, depth, callee), addr);
      RunKeepsAccounts(r.state, self, r.gas, depth, rest);
  }

  // ---------- nonces ----------

  /** Some creation of the tree is at `a`. */
  predicate Creates(b: Body, a: Addr)
    decreases b
  {
    match b
    case Return(_) => false
    case Fault => false
    case Destroy(_) => false
    case Spend(_, rest) => Creates(rest, a)
    case AddRefund(_, rest) => Creates(rest, a)
    case CallTo(_, _, _, callee, rest) => Creates(callee, a) || Creates(rest, a)
    case CallCodeOf(_, _, callee, rest) => Creates(callee, a) || Creates(rest, a)
    case CreateAt(addr, _, callee, rest) => addr == a || Creates(callee, a) || Creates(rest, a)
  }

  /** Some self-destruction of the tree is run as `a`. */
  predicate Destroys(self: Addr, b: Body, a: Addr)
    decreases b
  {
    match b
    case Return(_) => false
    case Fault => false
    case Destroy(_) => self == a
    case Spend(_, rest) => Destroys(self, rest, a)
    case AddRefund(_, rest) => Destroys(self, rest, a)
    case CallTo(to, _, _, callee, rest) => Destroys(to, callee, a) || Destroys(self, rest, a)
    case CallCodeOf(_, _, callee, rest) => Destroys(self, callee, a) || Destroys(self, rest, a)
    case CreateAt(addr, _, callee, rest) => Destroys(addr, callee, a) || Destroys(self, rest, a)
  }

  predicate Unmarked(s: State, a: Addr) {
    a in s.accounts ==> !s.accounts[a].remove
  }

  /** What execution keeps of `a`: its nonce does not fall unless a contract is
      created there, and it is not marked for removal unless it destroys itself. */
  ghost predicate Steady(s: State, s': State, a: Addr, creates: bool, destroys: bool) {
    && (!creates ==> NonceOf(s'.accounts, a) >= NonceOf(s.accounts, a))
    && (!destroys && Unmarked(s, a) ==> Unmarked(s', a))
  }

  lemma EnterSteady(s: State, caller: Addr, t: Target, value: nat, a: Addr, s1: State)
    requires var snapshot := Snapshot(s, caller, t);
             s1 == snapshot.(accounts := Transfer(Opened(snapshot.accounts, t), caller, t.addr, value))
    ensures Steady(s, s1, a, t.New? && t.addr == a, false)
    ensures t.New? && caller == a && t.addr != a ==> NonceOf(s1.accounts, a) == NonceOf(s.accounts, a) + 1
  {
  }

  /** A creation that gets past the checks raises the creator's nonce for good. */
  lemma {:induction false} ExecSteady(s: State, caller: Addr, t: Target, value: nat, gas: nat, depth: nat, callee: Body, a: Addr, r: Result)
    requires r == Exec(s, caller, t, value, gas, depth, callee)
    ensures Steady(s, r.state, a, (t.New? && t.addr == a) || Creates(callee, a), Destroys(t.addr, callee, a))
    ensures t.New? && caller == a && t.addr != a && !Creates(callee, a) && depth <= 1024 && BalanceOf(s.accounts, a) >= value ==>
            NonceOf(r.state.accounts, a) >= NonceOf(s.accounts, a) + 1
    decreases callee, 1
  {
    if depth <= CALL_CREATE_DEPTH && BalanceOf(s.accounts, caller) >= value {
      var snapshot := Snapshot(s, caller, t);
      var s1 := snapshot.(accounts := Transfer(Opened(snapshot.accounts, t), caller, t.addr, value));
      EnterSteady(s, caller, t, value, a, s1);
      RunSteady(s1, t.addr, gas, depth + 1, callee, a, Run(s1, t.addr, gas, depth + 1, callee));
    }
  }

  lemma {:induction false} RunSteady(s: State, self: Addr, gas: nat, depth: nat, b: Body, a: Addr, r: Result)
    requires r == Run(s, self, gas, depth, b)
    ensures Steady(s, r.state, a, Creates(b, a), Destroys(self, b, a))
    decreases b, 0
  {
    match b
    case Return(_) =>
    case Fault =>
    case Destroy(_) =>
    case Spend(cost, rest) => if gas >= cost { RunSteady(s, self, gas - cost, depth, rest, a, r); }
    case AddRefund(amount, rest) => RunSteady(s.(refund := s.refund + amount), self, gas, depth, rest, a, r);
    case CallTo(_, _, _, _, _) => CallSteady(s, self, gas, depth, b, a, r);
    case CallCodeOf(_, _, _, _) => CallCodeSteady(s, self, gas, depth, b, a, r);
    case CreateAt(addr, value, callee, rest) =>
      var r1 := Exec(s, self, New(addr), value, gas, depth, callee);
      ExecSteady(s, self, New(addr), value, gas, depth, callee, a, r1);
      var r2 := Deposit(r1, addr);
      RunSteady(r2.state, self, r2.gas, depth, rest, a, r);
  }

  lemma {:induction false} CallSteady(s: State, self: Addr, gas: nat, depth: nat, b: Body, a: Addr, r: Result)
    requires b.CallTo? && r == Run(s, self, gas, depth, b)
    ensures Steady(s, r.state, a, Creates(b, a), Destroys(self, b, a))
    decreases b, -1
  {
    var cost := b.gas + NewAccountGas(s, b.to) + ValueGas(b.value);
    if gas >= cost {
      var r1 := Exec(s, self, At(b.to), b.value, b.gas + Stipend(b.value), depth, b.callee);
      ExecSteady(s, self, At(b.to), b.value, b.gas + Stipend(b.value), depth, b.callee, a, r1);
      RunSteady(r1.state, self, gas - cost + r1.gas, depth, b.rest, a, r);
    }
  }

  lemma {:induction false} CallCodeSteady(s: State, self: Addr, gas: nat, depth: nat, b: Body, a: Addr, r: Result)
    requires b.CallCodeOf? && r == Run(s, self, gas, depth, b)
    ensures Steady(s, r.state, a, Creates(b, a), Destroys(self, b, a))
    decreases b, -1
  {
    var cost := b.gas + ValueGas(b.value);
    if gas >= cost {
      var r1 := Exec(s, self, At(self), b.value, b.gas + Stipend(b.value), depth, b.callee);
      ExecSteady(s, self, At(self), b.value, b.gas + Stipend(b.value), depth, b.callee, a, r1);
      RunSteady(r1.state, self, gas - cost + r1.gas, depth, b.rest, a, r);
    }
  }

  // ---------- what straight code and one nested call do ----------

  /** Code without calls: costs and refunds, then a return. */
  predicate Straight(b: Body) {
    match b
    case Return(_) => true
    case Spend(_, rest) => Straight(rest)
    case AddRefund(_, rest) => Straight(rest)
    case _ => false
  }

  function CostOf(b: Body): nat
    requires Straight(b)
  {
    match b
    case Return(_) => 0
    case Spend(cost, rest) => cost + CostOf(rest)
    case AddRefund(_, rest) => CostOf(rest)
  }

  function RefundsOf(b: Body): nat
    requires Straight(b)
  {
    match b
    case Return(_) => 0
    case Spend(_, rest) => RefundsOf(rest)
    case AddRefund(amount, rest) => amount + RefundsOf(rest)
  }

  function SizeOf(b: Body): nat
    requires Straight(b)
  {
    match b
    case Return(size) => size
    case Spend(_, rest) => SizeOf(rest)
    case AddRefund(_, rest) => SizeOf(rest)
  }

  /** Straight code runs through exactly when the gas covers the sum of its costs. */
  lemma {:induction false} RunStraight(s: State, self: Addr, gas: nat, depth: nat, b: Body)
    requires Straight(b)
    ensures var r := Run(s, self, gas, depth, b);
            if CostOf(b) <= gas
            then r == Result(s.(refund := s.refund + RefundsOf(b)), gas - CostOf(b), None, SizeOf(b))
            else r.error == Some(VmError) && r.gas == 0
    decreases b
  {
    match b
    case Return(_) =>
    case Spend(cost, rest) =>
      if gas >= cost {
        RunStraight(s, self, gas - cost, depth, rest);
      }
    case AddRefund(amount, rest) => RunStraight(s.(refund := s.refund + amount), self, gas, depth, rest);
  }

  /** Costs and refunds, then a fault. */
  predicate Faulty(b: Body) {
    match b
    case Fault => true
    case Spend(_, rest) => Faulty(rest)
    case AddRefund(_, rest) => Faulty(rest)
    case _ => false
  }

  lemma {:induction false} RunFaulty(s: State, self: Addr, gas: nat, depth: nat, b: Body)
    requires Faulty(b)
    ensures Run(s, self, gas, depth, b).error == Some(VmError) && Run(s, self, gas, depth, b).gas == 0
    decreases b
  {
    match b
    case Fault =>
    case Spend(cost, rest) =>
      if gas >= cost {
        RunFaulty(s, self, gas - cost, depth, rest);
      }
    case AddRefund(amount, rest) => RunFaulty(s.(refund := s.refund + amount), self, gas, depth, rest);
  }

  /** A call to code that faults moves nothing and refunds nothing, and past the
      checks costs all its gas, however little it had spent. */
  lemma ExecFaulty(s: State, caller: Addr, to: Addr, value: nat, gas: nat, depth: nat, callee: Body)
    requires Faulty(callee)
    ensures var r := Exec(s, caller, At(to), value, gas, depth, callee);
            r.error.Some? && r.state == s && (depth <= 1024 && BalanceOf(s.accounts, caller) >= value ==> r.gas == 0)
  {
    RunFaulty(s.(accounts := Transfer(Opened(s.accounts, At(to)), caller, to, value)), to, gas, depth + 1, callee);
  }

  /** From `s` to `s'`, `value` has moved between two accounts, the refund counter
      has grown, and every other balance, nonce and code length is as before. */
  ghost predicate Moves(s: State, s': State, from: Addr, to: Addr, value: int, refunds: nat) {
    && s'.refund == s.refund + refunds && s'.burnt == s.burnt
    && s'.accounts.Keys == s.accounts.Keys + {from, to}
    && forall a: Addr :: a in s'.accounts ==>
         && s'.accounts[a].balance == BalanceOf(s.accounts, a) - (if a == from then value else 0) + (if a == to then value else 0)
         && s'.accounts[a].(balance := 0) == GetOrNew(s.accounts, a).(balance := 0)
  }

  lemma EnterMoves(s: State, caller: Addr, to: Addr, value: nat, refunds: nat, s1: State)
    requires s1 == State(Transfer(Opened(s.accounts, At(to)), caller, to, value), s.refund + refunds, s.burnt)
    ensures Moves(s, s1, caller, to, value, refunds)
  {
  }

  /** A call to straight code. */
  lemma ExecStraight(s: State, caller: Addr, to: Addr, value: nat, gas: nat, depth: nat, callee: Body, r: Result)
    requires Straight(callee) && r == Exec(s, caller, At(to), value, gas, depth, callee)
    ensures if depth > 1024 || BalanceOf(s.accounts, caller) < value then r.state == s && r.gas == gas && r.error.Some?
            else if gas < CostOf(callee) then r.state == s && r.gas == 0 && r.error == Some(VmError)
            else
              && r.error.None? && r.gas == gas - CostOf(callee) && r.size == SizeOf(callee)
              && Moves(s, r.state, caller, to, value, RefundsOf(callee))
  {
    if depth <= CALL_CREATE_DEPTH && BalanceOf(s.accounts, caller) >= value {
      var s1 := s.(accounts := Transfer(Opened(s.accounts, At(to)), caller, to, value));
      RunStraight(s1, to, gas, depth + 1, callee);
      EnterMoves(s, caller, to, value, RefundsOf(callee), s1.(refund := s.refund + RefundsOf(callee)));
    }
  }

  /** A nested call to straight code: what it costs, what it moves, what comes back,
      and that the caller goes on after it, whether or not it fails. */
  lemma NestedCall(s: State, self: Addr, gas: nat, depth: nat, b: Body, out: Result) returns (s': State)
    requires b.CallTo? && Straight(b.callee) && out == Run(s, self, gas, depth, b)
    ensures var extra: nat := (if b.to in s.accounts then 0 else 25000) + (if b.value > 0 then 9000 else 0);
            var given: nat := b.gas + if b.value > 0 then 2300 else 0;
            if gas < b.gas + extra then out == Result(s, 0, Some(VmError), 0)
            else if depth > 1024 || BalanceOf(s.accounts, self) < b.value
            then out == Run(s, self, gas - b.gas - extra + given, depth, b.rest)
            else if given < CostOf(b.callee)
            then out == Run(s, self, gas - b.gas - extra, depth, b.rest)
            else
              && Moves(s, s', self, b.to, b.value, RefundsOf(b.callee))
              && out == Run(s', self, gas - b.gas - extra + given - CostOf(b.callee), depth, b.rest)
  {
    var r := Exec(s, self, At(b.to), b.value, b.gas + Stipend(b.value), depth, b.callee);
    ExecStraight(s, self, b.to, b.value, b.gas + Stipend(b.value), depth, b.callee, r);
    s' := r.state;
  }

  /** Borrowed code runs as the caller: no ether moves, whatever the value. */
  lemma NestedCallCode(s: State, self: Addr, gas: nat, depth: nat, b: Body, out: Result) returns (s': State)
    requires b.CallCodeOf? && Straight(b.callee) && out == Run(s, self, gas, depth, b)
    ensures var extra: nat := if b.value > 0 then 9000 else 0;
            var given: nat := b.gas + if b.value > 0 then 2300 else 0;
            if gas < b.gas + extra then out == Result(s, 0, Some(VmError), 0)
            else if depth > 1024 || BalanceOf(s.accounts, self) < b.value
            then out == Run(s, self, gas - b.gas - extra + given, depth, b.rest)
            else if given < CostOf(b.callee)
            then out == Run(s, self, gas - b.gas - extra, depth, b.rest)
            else
              && Moves(s, s', self, self, 0, RefundsOf(b.callee))
              && out == Run(s', self, gas - b.gas - extra + given - CostOf(b.callee), depth, b.rest)
  {
    var r := Exec(s, self, At(self), b.value, b.gas + Stipend(b.value), depth, b.callee);
    ExecStraight(s, self, self, b.value, b.gas + Stipend(b.value), depth, b.callee, r);
    s' := r.state;
  }

  /** After the creation of a contract at `addr`: the creator's nonce is one
      higher, the value has moved, and the contract has its code. */
  ghost predicate Created(s: State, s': State, caller: Addr, addr: Addr, value: int, code: nat) {
    && NonceOf(s'.accounts, caller) == NonceOf(s.accounts, caller) + 1
    && addr in s'.accounts && s'.accounts[addr] == Account(BalanceOf(s.accounts, addr) + value, 0, code, false)
    && BalanceOf(s'.accounts, caller) == BalanceOf(s.accounts, caller) - value
    && s'.burnt == s.burnt
    && forall a: Addr :: a != caller && a != addr ==>
         (a in s'.accounts <==> a in s.accounts) && (a in s.accounts ==> s'.accounts[a] == s.accounts[a])
  }

  lemma EnterCreates(s: State, caller: Addr, addr: Addr, value: nat, s1: State)
    requires caller != addr && var snapshot := Snapshot(s, caller, New(addr));
             s1 == snapshot.(accounts := Transfer(Opened(snapshot.accounts, New(addr)), caller, addr, value))
    ensures Created(s, s1, caller, addr, value, 0) && s1.refund == s.refund
  {
  }

  lemma DepositInstalls(s: State, caller: Addr, addr: Addr, value: nat, r: Result)
    requires caller != addr && r.error.None? && Created(s, r.state, caller, addr, value, 0)
    ensures var code := if 200 * r.size <= r.gas then r.size else 0;
            && Created(s, Deposit(r, addr).state, caller, addr, value, code)
            && Deposit(r, addr).gas == r.gas - 200 * code && Deposit(r, addr).state.refund == r.state.refund
  {
  }

  lemma CreateRuns(s: State, caller: Addr, addr: Addr, value: nat, gas: nat, depth: nat, callee: Body, x: Result)
    requires Straight(callee) && caller != addr && depth <= 1024 && BalanceOf(s.accounts, caller) >= value
    requires x == Exec(s, caller, New(addr), value, gas, depth, callee)
    ensures if gas < CostOf(callee) then NonceRaised(s, x.state, caller) && x.gas == 0 && x.error == Some(VmError)
            else
              && x.error.None? && x.gas == gas - CostOf(callee) && x.size == SizeOf(callee)
              && Created(s, x.state, caller, addr, value, 0) && x.state.refund == s.refund + RefundsOf(callee)
  {
    var snapshot := Snapshot(s, caller, New(addr));
    var s1 := snapshot.(accounts := Transfer(Opened(snapshot.accounts, New(addr)), caller, addr, value));
    EnterCreates(s, caller, addr, value, s1);
    RunStraight(s1, addr, gas, depth + 1, callee);
  }

  /** A creation by straight code: it gets all the gas, and pays 200 for each byte
      of code it installs; without the gas for that no code is installed. */
  lemma CreateStraight(s: State, caller: Addr, addr: Addr, value: nat, gas: nat, depth: nat, callee: Body, x: Result, r: Result)
    requires Straight(callee) && caller != addr && r == Deposit(x, addr)
    requires x == Exec(s, caller, New(addr), value, gas, depth, callee)
    ensures if depth > 1024 || BalanceOf(s.accounts, caller) < value then r.state == s && r.gas == gas && r.error.Some?
            else if gas < CostOf(callee) then NonceRaised(s, r.state, caller) && r.gas == 0 && r.error == Some(VmError)
            else
              var code := if 200 * SizeOf(callee) <= gas - CostOf(callee) then SizeOf(callee) else 0;
              && r.error.None? && r.gas == gas - CostOf(callee) - 200 * code
              && Created(s, r.state, caller, addr, value, code) && r.state.refund == s.refund + RefundsOf(callee)
  {
    if depth <= CALL_CREATE_DEPTH && BalanceOf(s.accounts, caller) >= value {
      CreateRuns(s, caller, addr, value, gas, depth, callee, x);
      if x.error.None? {
        DepositInstalls(s, caller, addr, value, x);
      }
    }
  }

  lemma NestedCreate(s: State, self: Addr, gas: nat, depth: nat, b: Body) returns (r: Result)
    requires b.CreateAt? && Straight(b.callee) && self != b.addr
    ensures Run(s, self, gas, depth, b) == Run(r.state, self, r.gas, depth, b.rest)
    ensures depth <= 1024 && BalanceOf(s.accounts, self) >= b.value && gas >= CostOf(b.callee) + 200 * SizeOf(b.callee) ==>
            && r.gas == gas - CostOf(b.callee) - 200 * SizeOf(b.callee)
            && Created(s, r.state, self, b.addr, b.value, SizeOf(b.callee))
  {
    var x := Exec(s, self, New(b.addr), b.value, gas, depth, b.callee);
    r := Deposit(x, b.addr);
    CreateStraight(s, self, b.addr, b.value, gas, depth, b.callee, x, r);
  }

  // ---------- the depth limit ----------

  /** `k` calls of an account to itself, one inside the other, and one unit of
      refund inside the last. */
  function Nest(self: Addr, k: nat): Body {
    if k == 0 then AddRefund(1, Return(0)) else CallTo(self, 0, 0, Nest(self, k - 1), Return(0))
  }

  /** The innermost call is reached exactly when it is at most 1025 levels deep. */
  lemma {:induction false} DepthLimit(s: State, self: Addr, gas: nat, depth: nat, k: nat, r: Result)
    requires self in s.accounts && s.accounts[self].balance >= 0 && depth <= 1025 && r == Run(s, self, gas, depth, Nest(self, k))
    ensures r.error.None? && r.gas == gas && r.state.refund == s.refund + if depth + k <= 1025 then 1 else 0
    decreases k
  {
    if k > 0 {
      var inner := Nest(self, k - 1);
      var call := Exec(s, self, At(self), 0, 0, depth, inner);
      if depth <= CALL_CREATE_DEPTH {
        var s1 := s.(accounts := Transfer(s.accounts, self, self, 0));
        DepthLimit(s1, self, 0, depth + 1, k - 1, Run(s1, self, 0, depth + 1, inner));
      }
      assert r == Run(call.state, self, gas + call.gas, depth, Return(0));
    }
  }
}
