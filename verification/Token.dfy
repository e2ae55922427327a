/** SandboxERC20.sol: balances, allowances and supply. `Ledger` is the contract's
    storage with each external function as a storage transformer that may revert;
    `SandboxERC20` is the contract itself, which updates the storage in place. */
module Token {
  import opened Evm

  datatype Ledger = Ledger(
    minter: Address,
    totalSupply: nat,
    balances: map<Address, nat>,
    allowances: map<(Address, Address), nat>)
  {
    function BalanceOf(account: Address): nat {
      if account in balances then balances[account] else 0
    }

    function Allowance(owner: Address, spender: Address): nat {
      if (owner, spender) in allowances then allowances[(owner, spender)] else 0
    }

    function SetBalance(account: Address, amount: nat): Ledger {
      this.(balances := balances[account := amount])
    }

    function Mint(sender: Address, to: Address, amount: nat): Result<Ledger> {
      if sender != minter then Revert(NotMinter)
      else
        :- Need(to != ZERO, ZeroRecipient);
        var supply :- Checked(totalSupply + amount);
        var credited :- Checked(BalanceOf(to) + amount);
        Success(this.(totalSupply := supply).SetBalance(to, credited))
    }

    function Approve(sender: Address, spender: Address, amount: nat): Ledger {
      this.(allowances := allowances[(sender, spender) := amount])
    }

    /** The internal `_transfer`: debit first, then credit, so that a transfer to
        oneself sees its own debit. */
    function Transfer(from: Address, to: Address, amount: nat): Result<Ledger> {
      if to == ZERO then Revert(ZeroRecipient)
      else
        :- Need(BalanceOf(from) >= amount, BalanceExceeded);
        var debited := SetBalance(from, BalanceOf(from) - amount);
        var credited :- Checked(debited.BalanceOf(to) + amount);
        Success(debited.SetBalance(to, credited))
    }

    /** An allowance of the largest word is infinite and is never reduced. */
    function Spend(owner: Address, spender: Address, amount: nat): Result<Ledger> {
      var allowed := Allowance(owner, spender);
      :- Need(allowed >= amount, AllowanceExceeded);
      Success(if allowed != MAX_UINT256 then Approve(owner, spender, allowed - amount) else this)
    }

    function TransferFrom(sender: Address, from: Address, to: Address, amount: nat): Result<Ledger> {
      var spent :- Spend(from, sender, amount);
      spent.Transfer(from, to, amount)
    }

    /** This account has granted nobody an allowance. */
    ghost predicate GrantsNothing(owner: Address) {
      forall s :: Allowance(owner, s) == 0
    }

    /** The supply is the sum of all balances and fits a word. */
    ghost predicate Conserved() {
      SumOf(balances) == totalSupply <= MAX_UINT256
    }
  }

  const NoHoldings: map<Address, nat> := map[]

  function Deployed(minter: Address): Ledger {
    Ledger(minter, 0, NoHoldings, map[])
  }

  // ---- Sums of balances ----

  ghost function SumOf(m: map<Address, nat>): nat {
    if m == map[] then 0
    else
      var k :| k in m;
      m[k] + SumOf(m - {k})
  }

  function At(m: map<Address, nat>, k: Address): nat {
    if k in m then m[k] else 0
  }

  lemma {:induction false} SumWithout(m: map<Address, nat>, k: Address)
    requires k in m
    ensures SumOf(m) == m[k] + SumOf(m - {k})
    decreases |m|
  {
    var c :| c in m && SumOf(m) == m[c] + SumOf(m - {c});
    if c != k {
      SumWithout(m - {c}, k);
      SumWithout(m - {k}, c);
      assert m - {c} - {k} == m - {k} - {c};
    }
  }

  lemma SumUpdated(m: map<Address, nat>, k: Address, v: nat)
    ensures SumOf(m[k := v]) == SumOf(m) - At(m, k) + v
  {
    var m' := m[k := v];
    SumWithout(m', k);
    assert m' - {k} == m - {k};
    if k in m {
      SumWithout(m, k);
    } else {
      assert m - {k} == m;
    }
  }

  /** Two different accounts together hold no more than the supply. */
  lemma TwoHoldings(m: map<Address, nat>, j: Address, k: Address)
    ensures At(m, k) <= SumOf(m)
    ensures j != k ==> At(m, j) + At(m, k) <= SumOf(m)
  {
    if k in m {
      SumWithout(m, k);
    }
    if j in m {
      SumWithout(m, j);
      if k in m && j != k {
        SumWithout(m - {j}, k);
      }
    }
  }

  // ---- What each operation does to every account ----

  /** A debit followed by the same credit keeps the sum. */
  lemma DebitThenCredit(m: map<Address, nat>, from: Address, to: Address, amount: nat)
    requires amount <= At(m, from)
    ensures var debited := m[from := At(m, from) - amount];
            && At(debited, to) + amount <= SumOf(m)
            && SumOf(debited[to := At(debited, to) + amount]) == SumOf(m)
  {
    var debited := m[from := At(m, from) - amount];
    SumUpdated(m, from, At(m, from) - amount);
    TwoHoldings(debited, to, to);
    SumUpdated(debited, to, At(debited, to) + amount);
  }

  /** A covered transfer to a real account succeeds and conserves the supply: the
      credit cannot overflow. */
  lemma TransferConserves(l: Ledger, from: Address, to: Address, amount: nat)
    requires l.Conserved() && to != ZERO && amount <= l.BalanceOf(from)
    ensures l.Transfer(from, to, amount).Success? && l.Transfer(from, to, amount).value.Conserved()
  {
    DebitThenCredit(l.balances, from, to, amount);
  }

  /** What a transfer that succeeds does to every account. */
  lemma TransferMoves(l: Ledger, from: Address, to: Address, amount: nat)
    requires l.Transfer(from, to, amount).Success?
    ensures var l' := l.Transfer(from, to, amount).value;
            && l'.totalSupply == l.totalSupply && l'.minter == l.minter && l'.allowances == l.allowances
            && forall a ::
                 l'.BalanceOf(a) == l.BalanceOf(a) - (if a == from then amount else 0) + (if a == to then amount else 0)
  {
  }

  /** When a transfer succeeds, and its effect on every account at once: the
      amount leaves the sender and reaches the recipient, which may coincide. */
  lemma TransferEffect(l: Ledger, from: Address, to: Address, amount: nat)
    requires l.Conserved()
    ensures l.Transfer(from, to, amount).Success? <==> to != ZERO && amount <= l.BalanceOf(from)
    ensures l.Transfer(from, to, amount).Success? ==>
              var l' := l.Transfer(from, to, amount).value;
              && l'.Conserved()
              && l'.totalSupply == l.totalSupply && l'.minter == l.minter && l'.allowances == l.allowances
              && (forall o, s :: l'.Allowance(o, s) == l.Allowance(o, s))
              && forall a ::
                 l'.BalanceOf(a) == l.BalanceOf(a) - (if a == from then amount else 0) + (if a == to then amount else 0)
  {
    if to != ZERO && amount <= l.BalanceOf(from) {
      TransferConserves(l, from, to, amount);
      TransferMoves(l, from, to, amount);
    }
  }

  /** transferFrom moves what transfer moves and uses up exactly that much of
      the spender's allowance, unless the allowance is infinite. */
  lemma TransferFromEffect(l: Ledger, sender: Address, from: Address, to: Address, amount: nat)
    requires l.Conserved()
    ensures l.TransferFrom(sender, from, to, amount).Success? <==>
            to != ZERO && amount <= l.BalanceOf(from) && amount <= l.Allowance(from, sender)
    ensures l.TransferFrom(sender, from, to, amount).Success? ==>
              var l' := l.TransferFrom(sender, from, to, amount).value;
              && l'.Conserved()
              && l'.totalSupply == l.totalSupply && l'.minter == l.minter
              && (forall a ::
                l'.BalanceOf(a) == l.BalanceOf(a) - (if a == from then amount else 0) + (if a == to then amount else 0))
              && (forall o, s :: l'.Allowance(o, s) ==
                    if o == from && s == sender && l.Allowance(o, s) != MAX_UINT256 then l.Allowance(o, s) - amount
                    else l.Allowance(o, s))
  {
    if amount <= l.Allowance(from, sender) {
      TransferEffect(l.Spend(from, sender, amount).value, from, to, amount);
    }
  }

  /** Minting raises one balance and the supply by the same amount. It fails for
      anyone but the minter, to the zero address, or past the largest word; the
      recipient's own balance is never what overflows. */
  lemma MintEffect(l: Ledger, sender: Address, to: Address, amount: nat)
    requires l.Conserved()
    ensures l.Mint(sender, to, amount).Success? <==>
            sender == l.minter && to != ZERO && l.totalSupply + amount <= MAX_UINT256
    ensures l.Mint(sender, to, amount).Success? ==>
              var l' := l.Mint(sender, to, amount).value;
              && l'.Conserved()
              && l'.totalSupply == l.totalSupply + amount && l'.minter == l.minter && l'.allowances == l.allowances
              && (forall o, s :: l'.Allowance(o, s) == l.Allowance(o, s))
              && forall a :: l'.BalanceOf(a) == l.BalanceOf(a) + (if a == to then amount else 0)
  {
    TwoHoldings(l.balances, to, to);
    SumUpdated(l.balances, to, l.BalanceOf(to) + amount);
  }

  /** Approving sets one allowance, replacing what was there, and nothing else. */
  lemma ApproveEffect(l: Ledger, sender: Address, spender: Address, amount: nat)
    ensures var l' := l.Approve(sender, spender, amount);
            && l'.balances == l.balances && l'.totalSupply == l.totalSupply && l'.minter == l.minter
            && forall o, s :: l'.Allowance(o, s) == if o == sender && s == spender then amount else l.Allowance(o, s)
  {
  }

  // ---- Which requirement fails ----

  lemma TransferFailsWith(l: Ledger, from: Address, to: Address, amount: nat)
    requires l.Conserved()
    ensures var r := l.Transfer(from, to, amount);
            && (r == Revert(ZeroRecipient) <==> to == ZERO)
            && (r == Revert(BalanceExceeded) <==> to != ZERO && amount > l.BalanceOf(from))
  {
    TransferEffect(l, from, to, amount);
  }

  lemma TransferFromFailsWith(l: Ledger, sender: Address, from: Address, to: Address, amount: nat)
    requires l.Conserved()
    ensures var r, allowed := l.TransferFrom(sender, from, to, amount), amount <= l.Allowance(from, sender);
            && (r == Revert(AllowanceExceeded) <==> !allowed)
            && (r == Revert(ZeroRecipient) <==> allowed && to == ZERO)
            && (r == Revert(BalanceExceeded) <==> allowed && to != ZERO && amount > l.BalanceOf(from))
  {
    if amount <= l.Allowance(from, sender) {
      TransferFailsWith(l.Spend(from, sender, amount).value, from, to, amount);
    }
  }

  lemma MintFailsWith(l: Ledger, sender: Address, to: Address, amount: nat)
    requires l.Conserved()
    ensures var r := l.Mint(sender, to, amount);
            && (r == Revert(NotMinter) <==> sender != l.minter)
            && (r == Revert(ZeroRecipient) <==> sender == l.minter && to == ZERO)
            && (r == Revert(Overflow) <==> sender == l.minter && to != ZERO && l.totalSupply + amount > MAX_UINT256)
  {
    MintEffect(l, sender, to, amount);
  }

  // ---- The contract ----

  class SandboxERC20 {
    const self: Address
    const minter: Address
    var totalSupply: nat
    var balanceOf: map<Address, nat>
    var allowance: map<(Address, Address), nat>

    function Storage(): Ledger
      reads this
    {
      Ledger(minter, totalSupply, balanceOf, allowance)
    }

    constructor (self: Address, minter: Address)
      requires minter != ZERO
      ensures this.self == self
      ensures Storage() == Deployed(minter)
    {
      this.self, this.minter := self, minter;
      totalSupply, balanceOf, allowance := 0, map[], map[];
    }

    /** Undoing a reverted call: storage goes back to what it was. */
    method RollBack(ledger: Ledger)
      requires ledger.minter == minter
      modifies this
      ensures Storage() == ledger
    {
      totalSupply, balanceOf, allowance := ledger.totalSupply, ledger.balances, ledger.allowances;
    }

    method Mint(sender: Address, to: Address, amount: uint256) returns (r: Outcome)
      modifies this
      ensures r == old(Storage()).Mint(sender, to, amount).Status()
      ensures Storage() == Committed(old(Storage()).Mint(sender, to, amount), old(Storage()))
    {
      if sender != minter { return Fail(NotMinter); }
      if to == ZERO { return Fail(ZeroRecipient); }
      var before := Storage();
      if totalSupply + amount > MAX_UINT256 { return Fail(Overflow); }
      totalSupply := totalSupply + amount;
      if BalanceOf(to) + amount > MAX_UINT256 {
        RollBack(before);
        return Fail(Overflow);
      }
      balanceOf := balanceOf[to := BalanceOf(to) + amount];
      r := Pass;
    }

    function BalanceOf(account: Address): nat
      reads this
    {
      Storage().BalanceOf(account)
    }

    method Approve(sender: Address, spender: Address, amount: uint256)
      modifies this
      ensures Storage() == old(Storage()).Approve(sender, spender, amount)
    {
      allowance := allowance[(sender, spender) := amount];
    }

    method Transfer(sender: Address, to: Address, amount: nat) returns (r: Outcome)
      modifies this
      ensures r == old(Storage()).Transfer(sender, to, amount).Status()
      ensures Storage() == Committed(old(Storage()).Transfer(sender, to, amount), old(Storage()))
    {
      r := Move(sender, to, amount);
    }

    method TransferFrom(sender: Address, from: Address, to: Address, amount: nat) returns (r: Outcome)
      modifies this
      ensures r == old(Storage()).TransferFrom(sender, from, to, amount).Status()
      ensures Storage() == Committed(old(Storage()).TransferFrom(sender, from, to, amount), old(Storage()))
    {
      var before := Storage();
      var allowed := before.Allowance(from, sender);
      if allowed < amount { return Fail(AllowanceExceeded); }
      if allowed != MAX_UINT256 {
        allowance := allowance[(from, sender) := allowed - amount];
      }
      r := Move(from, to, amount);
      if r.Fail? {
        RollBack(before);
      }
    }

    /** The internal `_transfer`. */
    method Move(from: Address, to: Address, amount: nat) returns (r: Outcome)
      modifies this
      ensures r == old(Storage()).Transfer(from, to, amount).Status()
      ensures Storage() == Committed(old(Storage()).Transfer(from, to, amount), old(Storage()))
    {
      if to == ZERO { return Fail(ZeroRecipient); }
      if BalanceOf(from) < amount { return Fail(BalanceExceeded); }
      var before := Storage();
      balanceOf := balanceOf[from := BalanceOf(from) - amount];
      if BalanceOf(to) + amount > MAX_UINT256 {
        RollBack(before);
        return Fail(Overflow);
      }
      balanceOf := balanceOf[to := BalanceOf(to) + amount];
      r := Pass;
    }
  }
}
