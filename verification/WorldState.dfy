/** The accounts of core/state as values, and the total of their balances. */
module WorldState {

  type Addr = nat

  /** `remove` marks an account that has self-destructed and goes when the
      transaction ends; code is known by its length. */
  datatype Account = Account(balance: int, nonce: nat, code: nat, remove: bool)

  type Accounts = map<Addr, Account>

  /** `burnt` counts the ether that self-destruction has taken out of the
      balances. The code keeps no such counter; nothing else reads it. */
  datatype State = State(accounts: Accounts, refund: nat, burnt: int)

  function BalanceOf(m: Accounts, a: Addr): int {
    if a in m then m[a].balance else 0
  }

  function NonceOf(m: Accounts, a: Addr): nat {
    if a in m then m[a].nonce else 0
  }

  /** The account of `a`, fresh if there is none. */
  function GetOrNew(m: Accounts, a: Addr): Account {
    if a in m then m[a] else Account(0, 0, 0, false)
  }

  function AddBalance(m: Accounts, a: Addr, amount: int): Accounts {
    m[a := GetOrNew(m, a).(balance := BalanceOf(m, a) + amount)]
  }

  function SetNonce(m: Accounts, a: Addr, n: nat): Accounts {
    m[a := GetOrNew(m, a).(nonce := n)]
  }

  function SetCode(m: Accounts, a: Addr, code: nat): Accounts {
    m[a := GetOrNew(m, a).(code := code)]
  }

  /** `CreateAccount`: a fresh account that keeps an earlier balance. */
  function CreateAccount(m: Accounts, a: Addr): Accounts {
    m[a := Account(BalanceOf(m, a), 0, 0, false)]
  }

  /** `SUICIDE`: the balance goes to the beneficiary, then the account's own
      balance is cleared, also when it is its own beneficiary. */
  function Suicide(s: State, a: Addr, to: Addr): State {
    var paid := AddBalance(s.accounts, to, BalanceOf(s.accounts, a));
    if a in paid
    then s.(accounts := paid[a := paid[a].(balance := 0, remove := true)],
            burnt := s.burnt + if a == to then BalanceOf(s.accounts, a) else 0)
    else s.(accounts := paid)
  }

  // ---------- the total ----------

  /** The sum of all balances. */
  ghost function Total(m: Accounts): int {
    if m == map[] then 0 else
      var a :| a in m;
      m[a].balance + Total(m - {a})
  }

  lemma {:induction false} TotalWithout(m: Accounts, a: Addr)
    requires a in m
    ensures Total(m) == m[a].balance + Total(m - {a})
    decreases |m|
  {
    var b :| b in m && Total(m) == m[b].balance + Total(m - {b});
    if b != a {
      TotalWithout(m - {b}, a);
      TotalWithout(m - {a}, b);
      assert m - {b} - {a} == m - {a} - {b};
    }
  }

  /** Changing one account changes the total by the change of its balance. */
  lemma TotalUpdate(m: Accounts, a: Addr, c: Account)
    ensures Total(m[a := c]) == Total(m) - BalanceOf(m, a) + c.balance
  {
    var m' := m[a := c];
    TotalWithout(m', a);
    if a in m {
      TotalWithout(m, a);
      assert m' - {a} == m - {a};
    } else {
      assert m' - {a} == m;
    }
  }

  ghost predicate NonNegative(m: Accounts) {
    forall a: Addr :: a in m ==> m[a].balance >= 0
  }

  /** What conservation counts: the balances and what has been burnt. */
  ghost function Supply(s: State): int {
    Total(s.accounts) + s.burnt
  }

  /** From balances that are not negative, none becomes so and nothing burnt comes
      back. */
  ghost predicate Sound(s: State, s': State) {
    NonNegative(s.accounts) ==> NonNegative(s'.accounts) && s'.burnt >= s.burnt
  }

  lemma {:induction false} TotalNonNegative(m: Accounts)
    requires NonNegative(m)
    ensures Total(m) >= 0
    decreases |m|
  {
    if m != map[] {
      var a :| a in m && Total(m) == m[a].balance + Total(m - {a});
      TotalNonNegative(m - {a});
    }
  }

  lemma AddBalanceTotal(m: Accounts, a: Addr, amount: int)
    ensures Total(AddBalance(m, a, amount)) == Total(m) + amount
  {
    TotalUpdate(m, a, GetOrNew(m, a).(balance := BalanceOf(m, a) + amount));
  }

  lemma SetNonceTotal(m: Accounts, a: Addr, n: nat)
    ensures Total(SetNonce(m, a, n)) == Total(m)
  {
    TotalUpdate(m, a, GetOrNew(m, a).(nonce := n));
  }

  lemma SetCodeTotal(m: Accounts, a: Addr, code: nat)
    ensures Total(SetCode(m, a, code)) == Total(m)
  {
    TotalUpdate(m, a, GetOrNew(m, a).(code := code));
  }

  lemma CreateAccountTotal(m: Accounts, a: Addr)
    ensures Total(CreateAccount(m, a)) == Total(m)
  {
    TotalUpdate(m, a, Account(BalanceOf(m, a), 0, 0, false));
  }

  /** Self-destruction moves ether or burns it, and accounts for both. */
  lemma SuicideSupply(s: State, a: Addr, to: Addr)
    ensures Supply(Suicide(s, a, to)) == Supply(s)
    ensures a != to ==> Suicide(s, a, to).burnt == s.burnt
  {
    var paid := AddBalance(s.accounts, to, BalanceOf(s.accounts, a));
    AddBalanceTotal(s.accounts, to, BalanceOf(s.accounts, a));
    if a in paid {
      TotalUpdate(paid, a, paid[a].(balance := 0, remove := true));
    }
  }

  /** Every balance after a self-destruction: the beneficiary has what the account
      had, the account has nothing and is marked for removal. */
  lemma SuicideMoves(s: State, a: Addr, to: Addr, b: Addr)
    requires a in s.accounts
    ensures var s' := Suicide(s, a, to);
            && BalanceOf(s'.accounts, b) ==
                 (if b == a then 0 else BalanceOf(s.accounts, b) + if b == to then BalanceOf(s.accounts, a) else 0)
            && NonceOf(s'.accounts, b) == NonceOf(s.accounts, b)
            && s'.accounts[a].remove && s'.refund == s.refund
            && s'.accounts.Keys == s.accounts.Keys + {to}
            && (b != a && b in s.accounts ==> s'.accounts[b].remove == s.accounts[b].remove)
  {
  }
}
