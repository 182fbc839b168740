/** The per-record logic of the two valuation loops: staked positions and
    held token accounts are turned into raw entries and folded into a
    multi-wallet accumulator (the market snapshot) or into the row of one
    known wallet (the user view). */
module Valuation {
  import opened Wrappers
  import opened FixedPoint
  import opened BondingCurve
  import opened Accumulator

  /** A wallet's staking record for one market, in raw token units. */
  datatype StakeInfo = StakeInfo(userAddress: string, stakePtAmount: nat, stakeYtAmount: nat, stakeLpAmount: nat)

  /** A token account balance, in raw token units. */
  datatype TokenAccount = TokenAccount(owner: string, amount: nat)

  /** Which of the market's three mints a token account holds. */
  datatype TokenKind = PtToken | YtToken | LpToken

  predicate IsEmptyStake(stake: StakeInfo) {
    stake.stakePtAmount == 0 && stake.stakeYtAmount == 0 && stake.stakeLpAmount == 0
  }

  /** The raw amounts of a staking record. Its LP backing is truncated to
      whole raw units. */
  function StakedRaw(stake: StakeInfo, rates: LpRates): (h: Holding)
    ensures h.ptAmount == stake.stakePtAmount as real && h.ytAmount == stake.stakeYtAmount as real
    ensures h.lpAmount == stake.stakeLpAmount as real
    ensures IsInteger(h.lpPtAmount) && IsInteger(h.lpYtAmount)
    ensures h.lpPtAmount <= h.lpAmount * rates.lpPtRate < h.lpPtAmount + 1.0
    ensures h.lpYtAmount <= h.lpAmount * rates.lpYtRate < h.lpYtAmount + 1.0
  {
    var lp := stake.stakeLpAmount as real;
    Holding(stake.stakePtAmount as real, stake.stakeYtAmount as real, lp,
            Floor(lp * rates.lpPtRate) as real, Floor(lp * rates.lpYtRate) as real)
  }

  /** The raw amounts of a held token account. Held LP backing is the exact
      product, not truncated. */
  function HeldRaw(kind: TokenKind, amount: nat, rates: LpRates): (h: Holding)
    ensures kind == PtToken ==> h == Holding(amount as real, 0.0, 0.0, 0.0, 0.0)
    ensures kind == YtToken ==> h == Holding(0.0, amount as real, 0.0, 0.0, 0.0)
    ensures kind == LpToken ==>
              && h.ptAmount == 0.0 && h.ytAmount == 0.0 && h.lpAmount == amount as real
              && h.lpPtAmount == h.lpAmount * rates.lpPtRate
              && h.lpYtAmount == h.lpAmount * rates.lpYtRate
  {
    match kind
    case PtToken => Holding(amount as real, 0.0, 0.0, 0.0, 0.0)
    case YtToken => Holding(0.0, amount as real, 0.0, 0.0, 0.0)
    case LpToken => Holding(0.0, 0.0, amount as real, amount as real * rates.lpPtRate, amount as real * rates.lpYtRate)
  }

  /** The staking records the snapshot loop keeps: every record that is
      not all zero, in their original order. */
  function NonEmptyStakes(stakes: seq<StakeInfo>): (kept: seq<StakeInfo>)
    ensures |kept| <= |stakes|
  {
    if |stakes| == 0 then []
    else if IsEmptyStake(stakes[0]) then NonEmptyStakes(stakes[1..])
    else [stakes[0]] + NonEmptyStakes(stakes[1..])
  }

  /** The kept records are exactly the stakes that are not all zero. */
  lemma {:induction false} NonEmptyStakesMembers(stakes: seq<StakeInfo>, s: StakeInfo)
    ensures s in NonEmptyStakes(stakes) <==> s in stakes && !IsEmptyStake(s)
  {
    if |stakes| > 0 {
      NonEmptyStakesMembers(stakes[1..], s);
      assert stakes == [stakes[0]] + stakes[1..];
    }
  }

  /** Staking records become entries, except all-zero ones, which are
      skipped (`StakedEntriesContents` says which entry each kept record
      becomes). */
  function StakedEntries(stakes: seq<StakeInfo>, rates: LpRates): (es: seq<Entry>)
    ensures |es| == |NonEmptyStakes(stakes)|
    ensures forall i | 0 <= i < |es| :: es[i].raw.ptAmount != 0.0 || es[i].raw.ytAmount != 0.0 || es[i].raw.lpAmount != 0.0
  {
    if |stakes| == 0 then []
    else if IsEmptyStake(stakes[0]) then StakedEntries(stakes[1..], rates)
    else [Entry(stakes[0].userAddress, StakedRaw(stakes[0], rates))] + StakedEntries(stakes[1..], rates)
  }

  /** Every held token account of one kind becomes an entry. */
  function HeldEntries(accounts: seq<TokenAccount>, kind: TokenKind, rates: LpRates): (es: seq<Entry>)
    ensures |es| == |accounts|
  {
    if |accounts| == 0 then []
    else [Entry(accounts[0].owner, HeldRaw(kind, accounts[0].amount, rates))] + HeldEntries(accounts[1..], kind, rates)
  }

  /** The i-th staked entry belongs to the i-th kept record's wallet and
      holds that record's raw amounts. */
  lemma {:induction false} StakedEntriesContents(stakes: seq<StakeInfo>, rates: LpRates)
    ensures var es := StakedEntries(stakes, rates);
            var kept := NonEmptyStakes(stakes);
            forall i | 0 <= i < |es| :: es[i] == Entry(kept[i].userAddress, StakedRaw(kept[i], rates))
  {
    if |stakes| > 0 {
      StakedEntriesContents(stakes[1..], rates);
      if !IsEmptyStake(stakes[0]) {
        var es := StakedEntries(stakes, rates);
        var kept := NonEmptyStakes(stakes);
        assert es == [Entry(stakes[0].userAddress, StakedRaw(stakes[0], rates))] + StakedEntries(stakes[1..], rates);
        assert kept == [stakes[0]] + NonEmptyStakes(stakes[1..]);
        forall i | 1 <= i < |es|
          ensures es[i] == Entry(kept[i].userAddress, StakedRaw(kept[i], rates))
        {
          assert es[i] == StakedEntries(stakes[1..], rates)[i - 1];
          assert kept[i] == NonEmptyStakes(stakes[1..])[i - 1];
        }
      }
    }
  }

  /** The i-th held entry belongs to the i-th account's owner and holds its
      balance in the field of the account's kind. */
  lemma {:induction false} HeldEntriesContents(accounts: seq<TokenAccount>, kind: TokenKind, rates: LpRates)
    ensures var es := HeldEntries(accounts, kind, rates);
            forall i | 0 <= i < |es| :: es[i] == Entry(accounts[i].owner, HeldRaw(kind, accounts[i].amount, rates))
  {
    if |accounts| > 0 {
      HeldEntriesContents(accounts[1..], kind, rates);
    }
  }

  /** The records of one market, in the order the snapshot loop visits
      them: staking records, then PT, YT and LP token accounts. */
  function SnapshotEntries(stakes: seq<StakeInfo>, ptAccounts: seq<TokenAccount>, ytAccounts: seq<TokenAccount>,
                           lpAccounts: seq<TokenAccount>, rates: LpRates): seq<Entry>
  {
    StakedEntries(stakes, rates) + HeldEntries(ptAccounts, PtToken, rates)
      + HeldEntries(ytAccounts, YtToken, rates) + HeldEntries(lpAccounts, LpToken, rates)
  }

  /** The per-wallet rows of one market. */
  function Snapshot(stakes: seq<StakeInfo>, ptAccounts: seq<TokenAccount>, ytAccounts: seq<TokenAccount>,
                    lpAccounts: seq<TokenAccount>, rates: LpRates, decimals: nat): (rows: seq<ResultAccount>)
    ensures UniqueWallets(rows)
  {
    var entries := SnapshotEntries(stakes, ptAccounts, ytAccounts, lpAccounts, rates);
    AccumulateKeepsWalletsUnique([], entries, decimals);
    Accumulate([], entries, decimals)
  }

  /** Each wallet's row holds exactly the scaled sum of its records. */
  lemma SnapshotTotals(stakes: seq<StakeInfo>, ptAccounts: seq<TokenAccount>, ytAccounts: seq<TokenAccount>,
                       lpAccounts: seq<TokenAccount>, rates: LpRates, decimals: nat, wallet: string)
    ensures HoldingOf(Snapshot(stakes, ptAccounts, ytAccounts, lpAccounts, rates, decimals), wallet)
              == Contribution(SnapshotEntries(stakes, ptAccounts, ytAccounts, lpAccounts, rates), wallet, decimals)
  {
    AccumulateTotals([], SnapshotEntries(stakes, ptAccounts, ytAccounts, lpAccounts, rates), decimals, wallet);
  }

  lemma {:induction false} StakedEntriesAppend(a: seq<StakeInfo>, b: seq<StakeInfo>, rates: LpRates)
    ensures StakedEntries(a + b, rates) == StakedEntries(a, rates) + StakedEntries(b, rates)
  {
    if |a| == 0 {
      assert a + b == b;
    } else {
      assert (a + b)[1..] == a[1..] + b;
      StakedEntriesAppend(a[1..], b, rates);
    }
  }

  /** An all-zero staking record changes nothing, wherever it appears. */
  lemma EmptyStakeIgnored(before: seq<StakeInfo>, stake: StakeInfo, after: seq<StakeInfo>,
                          ptAccounts: seq<TokenAccount>, ytAccounts: seq<TokenAccount>,
                          lpAccounts: seq<TokenAccount>, rates: LpRates, decimals: nat)
    requires IsEmptyStake(stake)
    ensures Snapshot(before + [stake] + after, ptAccounts, ytAccounts, lpAccounts, rates, decimals)
              == Snapshot(before + after, ptAccounts, ytAccounts, lpAccounts, rates, decimals)
  {
    StakedEntriesAppend(before + [stake], after, rates);
    StakedEntriesAppend(before, [stake], rates);
    StakedEntriesAppend(before, after, rates);
    assert [stake][1..] == [];
    assert StakedEntries([stake], rates) == [];
    assert before + [stake] + after == (before + [stake]) + after;
    assert StakedEntries(before + [stake] + after, rates) == StakedEntries(before + after, rates);
  }

  /** Reordering the staking records keeps the entries they produce up to
      reordering. */
  lemma {:induction false} StakedEntriesPermutation(a: seq<StakeInfo>, b: seq<StakeInfo>, rates: LpRates)
    requires multiset(a) == multiset(b)
    ensures multiset(StakedEntries(a, rates)) == multiset(StakedEntries(b, rates))
    decreases |a|
  {
    if |a| == 0 {
      EmptyMultiset(b);
    } else {
      var j := MatchingIndex(a, b);
      StakedEntriesPermutation(a[1..], b[..j] + b[j + 1..], rates);
      StakedEntriesRemove(b, j, rates);
      StakedEntriesHead(a, rates);
    }
  }

  /** The entries of position `j` and of the rest make up all the entries. */
  lemma StakedEntriesRemove(b: seq<StakeInfo>, j: nat, rates: LpRates)
    requires j < |b|
    ensures multiset(StakedEntries(b, rates))
              == multiset(StakedEntries([b[j]], rates)) + multiset(StakedEntries(b[..j] + b[j + 1..], rates))
  {
    assert b == b[..j] + [b[j]] + b[j + 1..];
    StakedEntriesAppend(b[..j] + [b[j]], b[j + 1..], rates);
    StakedEntriesAppend(b[..j], [b[j]], rates);
    StakedEntriesAppend(b[..j], b[j + 1..], rates);
  }

  /** The entries of the first record and of the rest make up all the entries. */
  lemma StakedEntriesHead(a: seq<StakeInfo>, rates: LpRates)
    requires |a| > 0
    ensures multiset(StakedEntries(a, rates)) == multiset(StakedEntries([a[0]], rates)) + multiset(StakedEntries(a[1..], rates))
  {
    assert a == [a[0]] + a[1..];
    StakedEntriesAppend([a[0]], a[1..], rates);
  }

  lemma {:induction false} HeldEntriesAppend(a: seq<TokenAccount>, b: seq<TokenAccount>, kind: TokenKind, rates: LpRates)
    ensures HeldEntries(a + b, kind, rates) == HeldEntries(a, kind, rates) + HeldEntries(b, kind, rates)
  {
    if |a| == 0 {
      assert a + b == b;
    } else {
      assert (a + b)[1..] == a[1..] + b;
      HeldEntriesAppend(a[1..], b, kind, rates);
    }
  }

  lemma HeldEntriesHead(a: seq<TokenAccount>, kind: TokenKind, rates: LpRates)
    requires |a| > 0
    ensures multiset(HeldEntries(a, kind, rates))
              == multiset(HeldEntries([a[0]], kind, rates)) + multiset(HeldEntries(a[1..], kind, rates))
  {
    assert a == [a[0]] + a[1..];
    HeldEntriesAppend([a[0]], a[1..], kind, rates);
  }

  /** Reordering token accounts keeps their entries up to reordering. */
  lemma {:induction false} HeldEntriesPermutation(a: seq<TokenAccount>, b: seq<TokenAccount>, kind: TokenKind, rates: LpRates)
    requires multiset(a) == multiset(b)
    ensures multiset(HeldEntries(a, kind, rates)) == multiset(HeldEntries(b, kind, rates))
    decreases |a|
  {
    if |a| == 0 {
      EmptyMultiset(b);
    } else {
      var j := MatchingIndex(a, b);
      HeldEntriesPermutation(a[1..], b[..j] + b[j + 1..], kind, rates);
      HeldEntriesRemove(b, j, kind, rates);
      HeldEntriesHead(a, kind, rates);
    }
  }


  lemma HeldEntriesRemove(b: seq<TokenAccount>, j: nat, kind: TokenKind, rates: LpRates)
    requires j < |b|
    ensures multiset(HeldEntries(b, kind, rates))
              == multiset(HeldEntries([b[j]], kind, rates)) + multiset(HeldEntries(b[..j] + b[j + 1..], kind, rates))
  {
    assert b == b[..j] + [b[j]] + b[j + 1..];
    HeldEntriesAppend(b[..j] + [b[j]], b[j + 1..], kind, rates);
    HeldEntriesAppend(b[..j], [b[j]], kind, rates);
    HeldEntriesAppend(b[..j], b[j + 1..], kind, rates);
  }

  /** The order in which staking records and token accounts arrive does not
      change any wallet's totals. */
  lemma SnapshotOrderIndependent(stakes: seq<StakeInfo>, stakes': seq<StakeInfo>,
                                 ptAccounts: seq<TokenAccount>, ptAccounts': seq<TokenAccount>,
                                 ytAccounts: seq<TokenAccount>, ytAccounts': seq<TokenAccount>,
                                 lpAccounts: seq<TokenAccount>, lpAccounts': seq<TokenAccount>,
                                 rates: LpRates, decimals: nat, wallet: string)
    requires multiset(stakes) == multiset(stakes')
    requires multiset(ptAccounts) == multiset(ptAccounts')
    requires multiset(ytAccounts) == multiset(ytAccounts')
    requires multiset(lpAccounts) == multiset(lpAccounts')
    ensures HoldingOf(Snapshot(stakes, ptAccounts, ytAccounts, lpAccounts, rates, decimals), wallet)
              == HoldingOf(Snapshot(stakes', ptAccounts', ytAccounts', lpAccounts', rates, decimals), wallet)
  {
    StakedEntriesPermutation(stakes, stakes', rates);
    HeldEntriesPermutation(ptAccounts, ptAccounts', PtToken, rates);
    HeldEntriesPermutation(ytAccounts, ytAccounts', YtToken, rates);
    HeldEntriesPermutation(lpAccounts, lpAccounts', LpToken, rates);
    AccumulateOrderIndependent(SnapshotEntries(stakes, ptAccounts, ytAccounts, lpAccounts, rates),
                               SnapshotEntries(stakes', ptAccounts', ytAccounts', lpAccounts', rates),
                               decimals, wallet);
  }

  /** A staked PT balance of 1_000_000 and a held PT balance of 500_000,
      both with 6 decimals, value the wallet at 1.5 PT. */
  lemma StakedPlusHeldScenario(wallet: string, rates: LpRates)
    ensures HoldingOf(Snapshot([StakeInfo(wallet, 1_000_000, 0, 0)], [TokenAccount(wallet, 500_000)], [], [], rates, 6),
                      wallet).ptAmount == 1.5
  {
    var stakes := [StakeInfo(wallet, 1_000_000, 0, 0)];
    var held := [TokenAccount(wallet, 500_000)];
    SnapshotTotals(stakes, held, [], [], rates, 6, wallet);
    var staked := Entry(wallet, StakedRaw(stakes[0], rates));
    var bought := Entry(wallet, HeldRaw(PtToken, 500_000, rates));
    assert SnapshotEntries(stakes, held, [], [], rates) == [staked, bought] by {
      assert stakes[1..] == [] && held[1..] == [];
      assert StakedEntries(stakes, rates) == [staked];
      assert HeldEntries(held, PtToken, rates) == [bought];
    }
    PairContribution(staked, bought, wallet, 6);
    SixDecimals();
  }

  lemma PairContribution(first: Entry, second: Entry, wallet: string, decimals: nat)
    requires first.owner == wallet && second.owner == wallet
    ensures Contribution([first, second], wallet, decimals)
              == Add(Scaled(first.raw, decimals), Add(Scaled(second.raw, decimals), NoHolding))
  {
    assert [first, second][1..] == [second];
    assert [second][1..] == [];
    assert Contribution([second], wallet, decimals) == Add(Scaled(second.raw, decimals), Contribution([], wallet, decimals));
  }

  lemma SixDecimals()
    ensures Pow10(6) == 1_000_000.0
  {
    assert Pow10(1) == 10.0;
    assert Pow10(2) == 100.0;
    assert Pow10(3) == 1_000.0;
    assert Pow10(4) == 10_000.0;
    assert Pow10(5) == 100_000.0;
  }

  /** The records the user view finds for one wallet in one market: its
      staking record, when there is one and it is not all zero, then its
      PT, YT and LP token accounts, each when there is one. */
  function UserEntries(stake: Option<StakeInfo>, ptAccount: Option<TokenAccount>, ytAccount: Option<TokenAccount>,
                       lpAccount: Option<TokenAccount>, rates: LpRates): (es: seq<Entry>)
    ensures |es| <= 4
  {
    (if stake.Some? && !IsEmptyStake(stake.value)
     then [Entry(stake.value.userAddress, StakedRaw(stake.value, rates))] else [])
    + (if ptAccount.Some? then [Entry(ptAccount.value.owner, HeldRaw(PtToken, ptAccount.value.amount, rates))] else [])
    + (if ytAccount.Some? then [Entry(ytAccount.value.owner, HeldRaw(YtToken, ytAccount.value.amount, rates))] else [])
    + (if lpAccount.Some? then [Entry(lpAccount.value.owner, HeldRaw(LpToken, lpAccount.value.amount, rates))] else [])
  }

  /** One wallet's row in one market, starting from zero. */
  function UserTokens(user: string, stake: Option<StakeInfo>, ptAccount: Option<TokenAccount>,
                      ytAccount: Option<TokenAccount>, lpAccount: Option<TokenAccount>,
                      rates: LpRates, decimals: nat): (row: ResultAccount)
    ensures row.walletAddress == user
    ensures row.holding == Contribution(UserEntries(stake, ptAccount, ytAccount, lpAccount, rates), user, decimals)
  {
    var entries := UserEntries(stake, ptAccount, ytAccount, lpAccount, rates);
    AccumulateUserTotals(ResultAccount(user, NoHolding), entries, decimals);
    AccumulateUser(ResultAccount(user, NoHolding), entries, decimals)
  }

  function AsSeq<T>(o: Option<T>): seq<T> {
    if o.Some? then [o.value] else []
  }

  /** The user view's records are the snapshot's records for a market in
      which the wallet's own records are the only ones. */
  lemma UserEntriesAreSnapshotEntries(stake: Option<StakeInfo>, ptAccount: Option<TokenAccount>,
                                      ytAccount: Option<TokenAccount>, lpAccount: Option<TokenAccount>, rates: LpRates)
    ensures UserEntries(stake, ptAccount, ytAccount, lpAccount, rates)
              == SnapshotEntries(AsSeq(stake), AsSeq(ptAccount), AsSeq(ytAccount), AsSeq(lpAccount), rates)
  {
    if stake.Some? {
      assert [stake.value][1..] == [];
    }
    SingleHeldEntry(ptAccount, PtToken, rates);
    SingleHeldEntry(ytAccount, YtToken, rates);
    SingleHeldEntry(lpAccount, LpToken, rates);
  }

  lemma SingleHeldEntry(account: Option<TokenAccount>, kind: TokenKind, rates: LpRates)
    ensures HeldEntries(AsSeq(account), kind, rates)
              == if account.Some? then [Entry(account.value.owner, HeldRaw(kind, account.value.amount, rates))] else []
  {
    if account.Some? {
      assert [account.value][1..] == [];
    }
  }

  /** The user view gives a wallet the same totals as the snapshot does for
      that wallet over the same records. */
  lemma UserTokensMatchSnapshot(user: string, stake: Option<StakeInfo>, ptAccount: Option<TokenAccount>,
                                ytAccount: Option<TokenAccount>, lpAccount: Option<TokenAccount>,
                                rates: LpRates, decimals: nat)
    ensures UserTokens(user, stake, ptAccount, ytAccount, lpAccount, rates, decimals).holding
              == HoldingOf(Snapshot(AsSeq(stake), AsSeq(ptAccount), AsSeq(ytAccount), AsSeq(lpAccount), rates, decimals), user)
  {
    UserEntriesAreSnapshotEntries(stake, ptAccount, ytAccount, lpAccount, rates);
    SnapshotTotals(AsSeq(stake), AsSeq(ptAccount), AsSeq(ytAccount), AsSeq(lpAccount), rates, decimals, user);
  }

  /** Records owned by another wallet leave the user's row at zero. */
  lemma ForeignRecordsIgnored(user: string, stake: Option<StakeInfo>, ptAccount: Option<TokenAccount>,
                              ytAccount: Option<TokenAccount>, lpAccount: Option<TokenAccount>,
                              rates: LpRates, decimals: nat)
    requires stake.Some? ==> stake.value.userAddress != user
    requires ptAccount.Some? ==> ptAccount.value.owner != user
    requires ytAccount.Some? ==> ytAccount.value.owner != user
    requires lpAccount.Some? ==> lpAccount.value.owner != user
    ensures UserTokens(user, stake, ptAccount, ytAccount, lpAccount, rates, decimals).holding == NoHolding
  {
    var entries := UserEntries(stake, ptAccount, ytAccount, lpAccount, rates);
    assert forall i | 0 <= i < |entries| :: entries[i].owner != user;
    NoOwnedEntries(entries, user, decimals);
  }
}
