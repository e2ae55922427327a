/** What each message to a token does to the world, in terms of who sent it and what
    it asks for; and that a trader who is minted to and approves can then swap. */
module Messages {
  import opened Evm
  import opened Token
  import opened Reserves
  import opened Swaps
  import opened World
  import opened Solvency

  /** Nothing but one token has changed. */
  ghost predicate OnlyToken(w: World, w': World, t: Address) {
    && w'.pools == w.pools && w'.executor == w.executor && w'.operator == w.operator
    && w'.tokens.Keys == w.tokens.Keys
    && forall u :: u in w.tokens && u != t ==> w'.tokens[u] == w.tokens[u]
  }

  ghost predicate SameBalances(l: Ledger, l': Ledger) {
    l'.totalSupply == l.totalSupply && forall a :: l'.BalanceOf(a) == l.BalanceOf(a)
  }

  ghost predicate SameGrants(l: Ledger, l': Ledger) {
    forall o, s :: l'.Allowance(o, s) == l.Allowance(o, s)
  }

  /** Only the minter mints. */
  lemma MintMessage(w: World, sender: Address, t: Address, to: Address, amount: uint256)
    requires w.Sound()
    ensures var m := Message(sender, Mint(t, to, amount));
            && (w.Step(m).Success? <==>
                  && t in w.tokens && sender == w.tokens[t].minter && to != ZERO
                  && w.tokens[t].totalSupply + amount <= MAX_UINT256)
            && (w.Step(m).Success? ==>
                  && OnlyToken(w, w.Exec(m), t)
                  && var l, l' := w.tokens[t], w.Exec(m).tokens[t];
                  && l'.totalSupply == l.totalSupply + amount && l'.minter == l.minter && SameGrants(l, l')
                  && forall a :: l'.BalanceOf(a) == l.BalanceOf(a) + (if a == to then amount else 0))
  {
    if t in w.tokens {
      MintEffect(w.tokens[t], sender, to, amount);
    }
  }

  /** An approval sets what its sender allows the spender. */
  lemma ApproveMessage(w: World, sender: Address, t: Address, spender: Address, amount: uint256)
    ensures var m := Message(sender, Approve(t, spender, amount));
            && (w.Step(m).Success? <==> t in w.tokens)
            && (w.Step(m).Success? ==>
                  && OnlyToken(w, w.Exec(m), t)
                  && var l, l' := w.tokens[t], w.Exec(m).tokens[t];
                  && SameBalances(l, l') && l'.minter == l.minter
                  && forall o, s ::
                       l'.Allowance(o, s) == if o == sender && s == spender then amount else l.Allowance(o, s))
  {
    if t in w.tokens {
      ApproveEffect(w.tokens[t], sender, spender, amount);
    }
  }

  /** A transfer moves the sender's own tokens. */
  lemma TransferMessage(w: World, sender: Address, t: Address, to: Address, amount: uint256)
    requires w.Sound()
    ensures var m := Message(sender, Transfer(t, to, amount));
            && (w.Step(m).Success? <==>
                  t in w.tokens && to != ZERO && amount <= w.tokens[t].BalanceOf(sender))
            && (w.Step(m).Success? ==>
                  && OnlyToken(w, w.Exec(m), t)
                  && Moved(w.tokens[t], w.Exec(m).tokens[t], sender, to, amount)
                  && SameGrants(w.tokens[t], w.Exec(m).tokens[t]))
  {
    if t in w.tokens {
      TransferEffect(w.tokens[t], sender, to, amount);
    }
  }

  /** A transferFrom moves the owner's tokens and uses up what the owner allowed its
      sender. */
  lemma TransferFromMessage(w: World, sender: Address, t: Address, owner: Address, to: Address, amount: uint256)
    requires w.Sound()
    ensures var m := Message(sender, TransferFrom(t, owner, to, amount));
            && (w.Step(m).Success? <==>
                  && t in w.tokens && to != ZERO
                  && amount <= w.tokens[t].BalanceOf(owner) && amount <= w.tokens[t].Allowance(owner, sender))
            && (w.Step(m).Success? ==>
                  && OnlyToken(w, w.Exec(m), t)
                  && Moved(w.tokens[t], w.Exec(m).tokens[t], owner, to, amount)
                  && UsedAllowance(w.tokens[t], w.Exec(m).tokens[t], owner, sender, amount))
  {
    if t in w.tokens {
      TransferFromEffect(w.tokens[t], sender, owner, to, amount);
    }
  }

  // ---- Mint, approve, swap ----

  function TokenIn(w: World, p: Address, side: Side): Address
    requires p in w.pools
  {
    if side == SellA then w.pools[p].tokenA else w.pools[p].tokenB
  }

  function Funding(w: World, p: Address, side: Side, minter: Address, trader: Address, x: uint256): seq<Message>
    requires p in w.pools
  {
    [Message(minter, Mint(TokenIn(w, p, side), trader, x)), Message(trader, Approve(TokenIn(w, p, side), p, x))]
  }

  lemma TwoMessages(w: World, m: Message, n: Message)
    ensures w.Run([m, n]) == w.Exec(m).Exec(n)
  {
    assert [m, n][1..] == [n] && [n][1..] == [];
    assert w.Exec(m).Run([n]) == w.Exec(m).Exec(n).Run([]);
  }

  /** Minting and approving give the trader the balance and the allowance, and touch
      no other balance, allowance or pool. */
  lemma FundingPrepares(w: World, p: Address, side: Side, minter: Address, trader: Address, x: uint256)
    requires w.Sound() && p in w.pools && w.HasPool(p) && minter !in w.pools && trader !in w.pools && trader != ZERO
    requires minter == w.tokens[TokenIn(w, p, side)].minter
    requires w.tokens[TokenIn(w, p, side)].totalSupply + x <= MAX_UINT256
    ensures var w', t := w.Run(Funding(w, p, side, minter, trader, x)), TokenIn(w, p, side);
            && w'.Sound() && OnlyToken(w, w', t)
            && (forall a ::
                  w'.tokens[t].BalanceOf(a) == w.tokens[t].BalanceOf(a) + (if a == trader then x else 0))
            && w'.tokens[t].Allowance(trader, p) == x
            && w'.tokens[t].totalSupply == w.tokens[t].totalSupply + x && w'.tokens[t].minter == w.tokens[t].minter
  {
    var t := TokenIn(w, p, side);
    var mint, approve := Message(minter, Mint(t, trader, x)), Message(trader, Approve(t, p, x));
    MintMessage(w, minter, t, trader, x);
    StepKeepsSound(w, mint);
    ApproveMessage(w.Exec(mint), trader, t, p, x);
    StepKeepsSound(w.Exec(mint), approve);
    TwoMessages(w, mint, approve);
  }

  /** Once minted to and approved, a swap goes through exactly when the pool, as it
      stood before, fills it and the quote meets the minimum. */
  lemma FundedSwapGoesThrough(
    w: World, p: Address, side: Side, minter: Address, trader: Address, x: uint256, min: uint256)
    requires w.Sound() && p in w.pools && w.HasPool(p) && minter !in w.pools && trader !in w.pools && trader != ZERO
    requires minter == w.tokens[TokenIn(w, p, side)].minter
    requires w.tokens[TokenIn(w, p, side)].totalSupply + x <= MAX_UINT256
    ensures var funded := w.Run(Funding(w, p, side, minter, trader, x));
            funded.Step(Message(trader, SwapExact(p, side, x, min))).Success? <==>
            Fills(w.pools[p].Reserves(), side, x) && w.pools[p].Reserves().QuoteFor(side, x) >= min
  {
    FundingPrepares(w, p, side, minter, trader, x);
    SoundSwap(w.Run(Funding(w, p, side, minter, trader, x)), p, side, trader, x, min);
  }
}
