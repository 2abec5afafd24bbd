/** The mutable objects behind a state transition: the gas pool of a block, the
    state database with its snapshots, the virtual machine's calls and the
    transition itself. Every method is proved equal to the value it stands for. */
module StateObjects {
  import opened Wrappers
  import opened WorldState
  import opened Execution
  import opened StateTransition

  class GasPool {
    var gas: nat

    constructor ()
      ensures gas == 0
    {
      gas := 0;
    }

    method AddGas(amount: nat)
      modifies this
      ensures gas == old(gas) + amount
    {
      gas := gas + amount;
    }

    /** Takes all of the amount or nothing. */
    method SubGas(amount: nat) returns (ok: bool)
      modifies this
      ensures ok <==> old(gas) >= amount
      ensures gas + (if ok then amount else 0) == old(gas)
    {
      if gas < amount {
        return false;
      }
      gas := gas - amount;
      return true;
    }
  }

  class StateDB {
    var accounts: Accounts
    var refund: nat
    ghost var burnt: int

    ghost function View(): State
      reads this
    {
      State(accounts, refund, burnt)
    }

    constructor Copy(db: StateDB)
      ensures View() == db.View()
    {
      accounts, refund, burnt := db.accounts, db.refund, db.burnt;
    }

    method Set(db: StateDB)
      modifies this
      ensures View() == old(db.View())
    {
      accounts, refund, burnt := db.accounts, db.refund, db.burnt;
    }

    method Credit(a: Addr, amount: int)
      modifies this
      ensures View() == StateTransition.Credit(old(View()), a, amount)
    {
      accounts := AddBalance(accounts, a, amount);
    }

    method BumpNonce(a: Addr)
      modifies this
      ensures View() == old(View()).(accounts := SetNonce(old(accounts), a, NonceOf(old(accounts), a) + 1))
    {
      var nonce := NonceOf(accounts, a);
      accounts := SetNonce(accounts, a, nonce + 1);
    }

    method Create(a: Addr)
      modifies this
      ensures View() == old(View()).(accounts := CreateAccount(old(accounts), a))
    {
      accounts := CreateAccount(accounts, a);
    }

    method Install(a: Addr, code: nat)
      modifies this
      ensures View() == old(View()).(accounts := SetCode(old(accounts), a, code))
    {
      accounts := SetCode(accounts, a, code);
    }

    /** The beneficiary is paid first, then the account is emptied and marked. */
    method Destroy(a: Addr, to: Addr)
      modifies this
      ensures View() == Suicide(old(View()), a, to)
    {
      ghost var lost := if a == to then BalanceOf(accounts, a) else 0;
      var balance := BalanceOf(accounts, a);
      accounts := AddBalance(accounts, to, balance);
      if a in accounts {
        accounts := accounts[a := accounts[a].(balance := 0, remove := true)];
        burnt := burnt + lost;
      }
    }

    method Enter(caller: Addr, t: Target, value: nat)
      modifies this
      ensures View() == old(View()).(accounts := Transfer(Opened(old(accounts), t), caller, t.addr, value))
    {
      if t.New? || t.addr !in accounts {
        Create(t.addr);
      }
      Credit(caller, -(value as int));
      Credit(t.addr, value);
    }

    /** `exec`: a snapshot is taken before anything but the creator's nonce
        changes, and put back when the machine fails. */
    method Exec(caller: Addr, t: Target, value: nat, gas: nat, depth: nat, callee: Body)
      returns (left: nat, error: Option<Error>, size: nat)
      modifies this
      ensures Result(View(), left, error, size) == Execution.Exec(old(View()), caller, t, value, gas, depth, callee)
      decreases callee, 1
    {
      if depth > CALL_CREATE_DEPTH {
        return gas, Some(DepthError), 0;
      }
      if BalanceOf(accounts, caller) < value {
        return gas, Some(ValueTransferError), 0;
      }
      if t.New? {
        BumpNonce(caller);
      }
      var snapshot := new StateDB.Copy(this);
      Enter(caller, t, value);
      left, error, size := Run(t.addr, gas, depth + 1, callee);
      if error.Some? {
        Set(snapshot);
      }
    }

    method Run(self: Addr, gas: nat, depth: nat, b: Body) returns (left: nat, error: Option<Error>, size: nat)
      modifies this
      ensures Result(View(), left, error, size) == Execution.Run(old(View()), self, gas, depth, b)
      decreases b, 0
    {
      match b
      case Return(n) => return gas, None, n;
      case Fault => return 0, Some(VmError), 0;
      case Destroy(to) =>
        Destroy(self, to);
        return gas, None, 0;
      case Spend(cost, rest) =>
        if gas < cost {
          return 0, Some(VmError), 0;
        }
        left, error, size := Run(self, gas - cost, depth, rest);
      case AddRefund(amount, rest) =>
        refund := refund + amount;
        left, error, size := Run(self, gas, depth, rest);
      case CallTo(to, g, value, callee, rest) =>
        left, error, size := RunCall(self, to, gas, depth, g, value, callee, rest);
      case CallCodeOf(g, value, callee, rest) =>
        left, error, size := RunCallCode(self, gas, depth, g, value, callee, rest);
      case CreateAt(addr, value, callee, rest) =>
        left, error, size := Exec(self, New(addr), value, gas, depth, callee);
        left := PayForCode(addr, left, error, size);
        left, error, size := Run(self, left, depth, rest);
    }

    method RunCall(self: Addr, to: Addr, gas: nat, depth: nat, g: nat, value: nat, callee: Body, rest: Body)
      returns (left: nat, error: Option<Error>, size: nat)
      modifies this
      ensures Result(View(), left, error, size) ==
              Execution.Run(old(View()), self, gas, depth, CallTo(to, g, value, callee, rest))
      decreases CallTo(to, g, value, callee, rest), -1
    {
      var cost := g + (if to in accounts then 0 else CALL_NEW_ACCOUNT_GAS) + ValueGas(value);
      if gas < cost {
        return 0, Some(VmError), 0;
      }
      left, error, size := Exec(self, At(to), value, g + Stipend(value), depth, callee);
      left, error, size := Run(self, gas - cost + left, depth, rest);
    }

    method RunCallCode(self: Addr, gas: nat, depth: nat, g: nat, value: nat, callee: Body, rest: Body)
      returns (left: nat, error: Option<Error>, size: nat)
      modifies this
      ensures Result(View(), left, error, size) ==
              Execution.Run(old(View()), self, gas, depth, CallCodeOf(g, value, callee, rest))
      decreases CallCodeOf(g, value, callee, rest), -1
    {
      var cost := g + ValueGas(value);
      if gas < cost {
        return 0, Some(VmError), 0;
      }
      left, error, size := Exec(self, At(self), value, g + Stipend(value), depth, callee);
      left, error, size := Run(self, gas - cost + left, depth, rest);
    }

    method PayForCode(addr: Addr, gas: nat, error: Option<Error>, size: nat) returns (left: nat)
      modifies this
      ensures Result(View(), left, error, size) == Deposit(Result(old(View()), gas, error, size), addr)
    {
      left := gas;
      if error.None? && CREATE_DATA_GAS * size <= gas {
        left := gas - CREATE_DATA_GAS * size;
        Install(addr, size);
      }
    }
  }

  /** The byte-counting loop of `IntrinsicGas`. */
  method ComputeIntrinsicGas(data: seq<nat>) returns (gas: nat)
    ensures gas == IntrinsicGas(data)
  {
    gas := TX_GAS;
    if |data| > 0 {
      var nz := 0;
      for i := 0 to |data|
        invariant nz == NonZeros(data[..i]) && nz <= i
      {
        assert data[..i + 1][..i] == data[..i];
        if data[i] != 0 {
          nz := nz + 1;
        }
      }
      assert data[..|data|] == data;
      gas := gas + nz * TX_DATA_NON_ZERO_GAS;
      gas := gas + (|data| - nz) * TX_DATA_ZERO_GAS;
    }
  }

  /** One message being applied. `gas` is what the sender still holds,
      `initialGas` what it bought. */
  class Transitioner {
    const db: StateDB
    const gp: GasPool
    const msg: Message
    const coinbase: Addr
    const script: Script
    var gas: nat
    var initialGas: nat

    constructor (db: StateDB, gp: GasPool, msg: Message, coinbase: Addr, script: Script)
      ensures this.db == db && this.gp == gp && this.msg == msg && this.coinbase == coinbase && this.script == script
      ensures gas == 0 && initialGas == 0
    {
      this.db, this.gp, this.msg, this.coinbase, this.script := db, gp, msg, coinbase, script;
      gas, initialGas := 0, 0;
    }

    method From()
      modifies db
      ensures db.View() == WithSender(old(db.View()), msg.from)
    {
      if msg.from !in db.accounts {
        db.Create(msg.from);
      }
    }

    method UseGas(amount: nat) returns (ok: bool)
      modifies this
      ensures ok <==> old(gas) >= amount
      ensures gas + (if ok then amount else 0) == old(gas)
      ensures initialGas == old(initialGas)
    {
      if gas < amount {
        return false;
      }
      gas := gas - amount;
      return true;
    }

    /** All of the gas is bought, from the sender and from the pool, or none. */
    method BuyGas() returns (error: Option<TxError>)
      requires gas == 0
      modifies this, db, gp
      ensures var s0 := WithSender(old(db.View()), msg.from);
              && error == BuyError(s0, old(gp.gas), msg)
              && db.View() == (if error.Some? then s0 else Charged(s0, msg))
              && gp.gas == old(gp.gas) - (if error.Some? then 0 else msg.gas)
              && (error.None? ==> gas == msg.gas && initialGas == msg.gas)
    {
      var mgval := msg.gas * msg.gasPrice;
      From();
      if BalanceOf(db.accounts, msg.from) < mgval {
        return Some(InsufficientForGas);
      }
      var ok := gp.SubGas(msg.gas);
      if !ok {
        return Some(PoolExhausted);
      }
      gas := gas + msg.gas;
      initialGas := msg.gas;
      db.Credit(msg.from, -mgval);
      return None;
    }

    method PreCheck() returns (error: Option<TxError>)
      requires gas == 0
      modifies this, db, gp
      ensures var s0 := WithSender(old(db.View()), msg.from);
              && error == PreError(s0, old(gp.gas), msg)
              && db.View() == (if error.Some? then s0 else Charged(s0, msg))
              && gp.gas == old(gp.gas) - (if error.Some? then 0 else msg.gas)
              && (error.None? ==> gas == msg.gas && initialGas == msg.gas)
    {
      From();
      if NonceOf(db.accounts, msg.from) != msg.nonce {
        return Some(NonceMismatch);
      }
      error := BuyGas();
    }

    method Perform() returns (error: Option<Error>)
      modifies this, db
      ensures var r := Execute(old(db.View()), msg, old(gas), script);
              && db.View() == r.state && gas == r.gas && error == r.error
      ensures initialGas == old(initialGas)
    {
      var size: nat;
      match msg.to
      case None =>
        gas, error, size := db.Exec(msg.from, New(script.created), msg.value, gas, 0, script.body);
        gas := db.PayForCode(script.created, gas, error, size);
      case Some(to) =>
        db.BumpNonce(msg.from);
        if to !in db.accounts {
          db.Create(to);
        }
        gas, error, size := db.Exec(msg.from, At(to), msg.value, gas, 0, script.body);
    }

    function GasUsed(): (used: nat)
      requires gas <= initialGas
      reads this
      ensures gas + used == initialGas
    {
      initialGas - gas
    }

    method RefundGas()
      requires gas <= initialGas == msg.gas
      requires msg.from in db.accounts
      modifies this, db, gp
      ensures gas <= initialGas == msg.gas
      ensures var s := old(db.View());
              var refund := RefundOf(msg.gas - old(gas), s.refund);
              && gas == old(gas) + refund
              && gp.gas == old(gp.gas) + gas
              && db.View() == Credit(Credit(s, msg.from, old(gas) * msg.gasPrice), msg.from, refund * msg.gasPrice)
    {
      From();
      var remaining := gas * msg.gasPrice;
      db.Credit(msg.from, remaining);
      var half := GasUsed() / 2;
      var refund := if half > db.refund then db.refund else half;
      gas := gas + refund;
      db.Credit(msg.from, refund * msg.gasPrice);
      gp.AddGas(gas);
    }

    method Finish() returns (usedGas: nat)
      requires gas <= initialGas == msg.gas
      requires msg.from in db.accounts
      modifies this, db, gp
      ensures Outcome(db.View(), gp.gas, usedGas, None) ==
              Settle(Result(old(db.View()), old(gas), None, 0), msg, coinbase, old(gp.gas))
    {
      RefundGas();
      var fee := GasUsed() * msg.gasPrice;
      db.Credit(coinbase, fee);
      return GasUsed();
    }

    /** What comes of gas that covers the intrinsic cost. */
    static lemma SpentIs(s: State, pool: nat, msg: Message, coinbase: Addr, script: Script, gas: nat, r: Result)
      requires gas == msg.gas - IntrinsicGas(msg.data) && r == Execute(s, msg, gas, script) && r.gas <= gas
      ensures Spent(s, pool, msg, coinbase, script) ==
              if r.error == Some(ValueTransferError) then Outcome(r.state, pool, 0, Some(CannotTransfer))
              else Settle(Result(r.state, r.gas, None, 0), msg, coinbase, pool)
    {
    }

    method SpendGas() returns (usedGas: nat, error: Option<TxError>)
      requires gas == initialGas == msg.gas && msg.from in db.accounts
      modifies this, db, gp
      ensures Outcome(db.View(), gp.gas, usedGas, error) ==
              Spent(old(db.View()), old(gp.gas), msg, coinbase, script)
    {
      ghost var bought := db.View();
      var intrinsic := ComputeIntrinsicGas(msg.data);
      var ok := UseGas(intrinsic);
      if !ok {
        return 0, Some(IntrinsicOutOfGas);
      }
      ExecuteKept(bought, msg, gas, script);
      ExecuteKeepsSender(bought, msg, gas, script);
      SpentIs(bought, gp.gas, msg, coinbase, script, gas, Execute(bought, msg, gas, script));
      var failure := Perform();
      if failure == Some(ValueTransferError) {
        return 0, Some(CannotTransfer);
      }
      usedGas := Finish();
      return usedGas, None;
    }

    /** `transitionDb` computes exactly `Transition`. */
    method TransitionDb() returns (usedGas: nat, error: Option<TxError>)
      requires gas == 0
      modifies this, db, gp
      ensures Outcome(db.View(), gp.gas, usedGas, error) ==
              Transition(old(db.View()), old(gp.gas), msg, coinbase, script)
    {
      error := PreCheck();
      if error.Some? {
        return 0, error;
      }
      usedGas, error := SpendGas();
    }
  }
}
