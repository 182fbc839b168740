/** The per-wallet accumulator of valued positions: a list of result rows,
    one per wallet address, each holding five human-scaled amounts. Raw
    amounts are divided by `10^decimals` as they are added. */
module Accumulator {
  import opened Wrappers
  import opened FixedPoint

  /** The five amounts tracked per wallet: PT, YT and LP balances and the
      PT and YT backing of the LP balance. */
  datatype Holding = Holding(ptAmount: real, ytAmount: real, lpAmount: real, lpPtAmount: real, lpYtAmount: real)

  const NoHolding: Holding := Holding(0.0, 0.0, 0.0, 0.0, 0.0)

  function Add(a: Holding, b: Holding): Holding {
    Holding(a.ptAmount + b.ptAmount, a.ytAmount + b.ytAmount, a.lpAmount + b.lpAmount,
            a.lpPtAmount + b.lpPtAmount, a.lpYtAmount + b.lpYtAmount)
  }

  /** Raw on-chain amounts converted to human units: each of the five is
      the raw value divided by `10^decimals`. */
  function Scaled(raw: Holding, decimals: nat): Holding {
    var unit := Pow10(decimals);
    Holding(raw.ptAmount / unit, raw.ytAmount / unit, raw.lpAmount / unit,
            raw.lpPtAmount / unit, raw.lpYtAmount / unit)
  }

  /** Scaling back up by `10^decimals` recovers every raw amount. */
  lemma ScaledInverse(raw: Holding, decimals: nat)
    ensures var h := Scaled(raw, decimals);
            && h.ptAmount * Pow10(decimals) == raw.ptAmount
            && h.ytAmount * Pow10(decimals) == raw.ytAmount
            && h.lpAmount * Pow10(decimals) == raw.lpAmount
            && h.lpPtAmount * Pow10(decimals) == raw.lpPtAmount
            && h.lpYtAmount * Pow10(decimals) == raw.lpYtAmount
  {
  }

  datatype ResultAccount = ResultAccount(walletAddress: string, holding: Holding)

  /** One raw contribution to fold into the accumulator: the owning wallet
      and its raw amounts. */
  datatype Entry = Entry(owner: string, raw: Holding)

  /** The first row of `data` belonging to `wallet`, if any. */
  function FindIndex(data: seq<ResultAccount>, wallet: string): (r: Option<nat>)
    ensures r.None? <==> forall i | 0 <= i < |data| :: data[i].walletAddress != wallet
    ensures r.Some? ==>
              && r.value < |data|
              && data[r.value].walletAddress == wallet
              && forall j | 0 <= j < r.value :: data[j].walletAddress != wallet
  {
    if |data| == 0 then None
    else if data[0].walletAddress == wallet then Some(0)
    else match FindIndex(data[1..], wallet)
         case None => None
         case Some(i) => Some(i + 1)
  }

  /** No wallet has two rows. */
  predicate UniqueWallets(data: seq<ResultAccount>) {
    forall i, j | 0 <= i < j < |data| :: data[i].walletAddress != data[j].walletAddress
  }

  /** Adds one wallet's raw amounts to the accumulator. A wallet without a
      row gets a new row, holding the scaled amounts, in front of the
      existing ones; a wallet with a row has the scaled amounts added to it
      while every other row stays as it was. */
  function UpdateResultAccount(data: seq<ResultAccount>, walletAddress: string, raw: Holding, decimals: nat)
    : (r: seq<ResultAccount>)
    ensures FindIndex(data, walletAddress).None? ==>
              r == [ResultAccount(walletAddress, Scaled(raw, decimals))] + data
    ensures FindIndex(data, walletAddress).Some? ==>
              var i := FindIndex(data, walletAddress).value;
              && |r| == |data|
              && r[i] == ResultAccount(walletAddress, Add(data[i].holding, Scaled(raw, decimals)))
              && forall j | 0 <= j < |data| && j != i :: r[j] == data[j]
  {
    match FindIndex(data, walletAddress)
    case None => [ResultAccount(walletAddress, Scaled(raw, decimals))] + data
    case Some(i) => data[i := ResultAccount(walletAddress, Add(data[i].holding, Scaled(raw, decimals)))]
  }

  /** An update keeps wallet addresses unique. */
  lemma UpdateKeepsWalletsUnique(data: seq<ResultAccount>, walletAddress: string, raw: Holding, decimals: nat)
    requires UniqueWallets(data)
    ensures UniqueWallets(UpdateResultAccount(data, walletAddress, raw, decimals))
  {
    var r := UpdateResultAccount(data, walletAddress, raw, decimals);
    if FindIndex(data, walletAddress).None? {
      forall i, j | 0 <= i < j < |r| ensures r[i].walletAddress != r[j].walletAddress {
        if i > 0 {
          assert r[i] == data[i - 1] && r[j] == data[j - 1];
        }
      }
    }
  }

  /** The amounts recorded for `wallet`, zero when it has no row. */
  function HoldingOf(data: seq<ResultAccount>, wallet: string): Holding {
    match FindIndex(data, wallet)
    case None => NoHolding
    case Some(i) => data[i].holding
  }

  /** Two lists with the same wallets at the same positions find the same row. */
  lemma {:induction false} FindIndexSameWallets(a: seq<ResultAccount>, b: seq<ResultAccount>, wallet: string)
    requires |a| == |b|
    requires forall k | 0 <= k < |a| :: a[k].walletAddress == b[k].walletAddress
    ensures FindIndex(a, wallet) == FindIndex(b, wallet)
  {
    if |a| > 0 && a[0].walletAddress != wallet {
      FindIndexSameWallets(a[1..], b[1..], wallet);
    }
  }

  /** An update adds the scaled amounts to its own wallet's total and
      leaves every other wallet's total unchanged. */
  lemma UpdateHoldingOf(data: seq<ResultAccount>, walletAddress: string, raw: Holding, decimals: nat, wallet: string)
    ensures HoldingOf(UpdateResultAccount(data, walletAddress, raw, decimals), wallet)
              == if wallet == walletAddress then Add(HoldingOf(data, wallet), Scaled(raw, decimals))
                 else HoldingOf(data, wallet)
  {
    var r := UpdateResultAccount(data, walletAddress, raw, decimals);
    match FindIndex(data, walletAddress)
    case None =>
      assert r[1..] == data;
    case Some(i) =>
      FindIndexSameWallets(r, data, wallet);
  }

  /** The scaled amounts of the entries owned by `wallet`, summed: the
      reference for what the fold must produce. */
  function Contribution(entries: seq<Entry>, wallet: string, decimals: nat): Holding {
    if |entries| == 0 then NoHolding
    else Add(if entries[0].owner == wallet then Scaled(entries[0].raw, decimals) else NoHolding,
             Contribution(entries[1..], wallet, decimals))
  }

  /** The loops of the valuation fold their records into the accumulator
      one at a time, in order. */
  function Accumulate(acc: seq<ResultAccount>, entries: seq<Entry>, decimals: nat): seq<ResultAccount>
    decreases |entries|
  {
    if |entries| == 0 then acc
    else Accumulate(UpdateResultAccount(acc, entries[0].owner, entries[0].raw, decimals), entries[1..], decimals)
  }

  /** Folding entries adds, to every wallet's total, exactly the scaled sum
      of that wallet's entries, and keeps wallets unique. */
  lemma {:induction false} AccumulateTotals(acc: seq<ResultAccount>, entries: seq<Entry>, decimals: nat, wallet: string)
    ensures HoldingOf(Accumulate(acc, entries, decimals), wallet)
              == Add(HoldingOf(acc, wallet), Contribution(entries, wallet, decimals))
    decreases |entries|
  {
    if |entries| > 0 {
      var share := if entries[0].owner == wallet then Scaled(entries[0].raw, decimals) else NoHolding;
      var next := UpdateResultAccount(acc, entries[0].owner, entries[0].raw, decimals);
      var rest := Contribution(entries[1..], wallet, decimals);
      UpdateHoldingOf(acc, entries[0].owner, entries[0].raw, decimals, wallet);
      assert HoldingOf(next, wallet) == Add(HoldingOf(acc, wallet), share);
      AccumulateTotals(next, entries[1..], decimals, wallet);
      assert Accumulate(acc, entries, decimals) == Accumulate(next, entries[1..], decimals);
      AddAssociative(HoldingOf(acc, wallet), share, rest);
    }
  }

  lemma {:induction false} AccumulateKeepsWalletsUnique(acc: seq<ResultAccount>, entries: seq<Entry>, decimals: nat)
    requires UniqueWallets(acc)
    ensures UniqueWallets(Accumulate(acc, entries, decimals))
    decreases |entries|
  {
    if |entries| > 0 {
      UpdateKeepsWalletsUnique(acc, entries[0].owner, entries[0].raw, decimals);
      AccumulateKeepsWalletsUnique(UpdateResultAccount(acc, entries[0].owner, entries[0].raw, decimals),
                                   entries[1..], decimals);
    }
  }

  /** Some entry belongs to `wallet`. */
  predicate Owns(entries: seq<Entry>, wallet: string) {
    exists i | 0 <= i < |entries| :: entries[i].owner == wallet
  }

  /** After the fold a wallet has a row exactly when it had one before or
      owns one of the entries. */
  lemma {:induction false} AccumulateRows(acc: seq<ResultAccount>, entries: seq<Entry>, decimals: nat, wallet: string)
    ensures FindIndex(Accumulate(acc, entries, decimals), wallet).Some? <==>
              FindIndex(acc, wallet).Some? || Owns(entries, wallet)
    decreases |entries|
  {
    if |entries| > 0 {
      var next := UpdateResultAccount(acc, entries[0].owner, entries[0].raw, decimals);
      assert FindIndex(next, wallet).Some? <==> FindIndex(acc, wallet).Some? || entries[0].owner == wallet by {
        if FindIndex(acc, entries[0].owner).None? {
          assert next[0].walletAddress == entries[0].owner;
          assert next[1..] == acc;
        } else {
          FindIndexSameWallets(next, acc, wallet);
          var i := FindIndex(acc, entries[0].owner).value;
          assert next[i].walletAddress == entries[0].owner;
        }
      }
      AccumulateRows(next, entries[1..], decimals, wallet);
      assert Owns(entries, wallet) <==> entries[0].owner == wallet || Owns(entries[1..], wallet) by {
        if Owns(entries, wallet) && entries[0].owner != wallet {
          var i :| 0 <= i < |entries| && entries[i].owner == wallet;
          assert entries[1..][i - 1].owner == wallet;
        }
        if Owns(entries[1..], wallet) {
          var i :| 0 <= i < |entries[1..]| && entries[1..][i].owner == wallet;
          assert entries[i + 1].owner == wallet;
        }
      }
    }
  }

  /** The reference sum splits over concatenation. */
  lemma {:induction false} ContributionAppend(a: seq<Entry>, b: seq<Entry>, wallet: string, decimals: nat)
    ensures Contribution(a + b, wallet, decimals) == Add(Contribution(a, wallet, decimals), Contribution(b, wallet, decimals))
  {
    if |a| > 0 {
      var share := if a[0].owner == wallet then Scaled(a[0].raw, decimals) else NoHolding;
      assert (a + b)[0] == a[0];
      assert (a + b)[1..] == a[1..] + b;
      assert Contribution(a + b, wallet, decimals) == Add(share, Contribution(a[1..] + b, wallet, decimals));
      ContributionAppend(a[1..], b, wallet, decimals);
      AddAssociative(share, Contribution(a[1..], wallet, decimals), Contribution(b, wallet, decimals));
    } else {
      assert a + b == b;
      AddZero(Contribution(b, wallet, decimals));
    }
  }

  lemma AddZero(h: Holding)
    ensures Add(NoHolding, h) == h
  {
  }

  /** Per-wallet totals do not depend on the order of the entries. */
  lemma {:induction false} ContributionPermutation(a: seq<Entry>, b: seq<Entry>, wallet: string, decimals: nat)
    requires multiset(a) == multiset(b)
    ensures Contribution(a, wallet, decimals) == Contribution(b, wallet, decimals)
    decreases |a|
  {
    if |a| == 0 {
      EmptyMultiset(b);
    } else {
      var j := MatchingIndex(a, b);
      ContributionPermutation(a[1..], b[..j] + b[j + 1..], wallet, decimals);
      ContributionRemove(b, j, wallet, decimals);
    }
  }

  lemma EmptyMultiset<T>(s: seq<T>)
    requires multiset(s) == multiset{}
    ensures s == []
  {
    assert |s| == |multiset(s)|;
  }

  /** In two sequences with the same elements, the head of the first sits
      at some position `j` of the second, and removing the head and that
      position leaves two sequences with the same elements. */
  lemma MatchingIndex<T>(a: seq<T>, b: seq<T>) returns (j: nat)
    requires |a| > 0 && multiset(a) == multiset(b)
    ensures j < |b| && b[j] == a[0]
    ensures multiset(a[1..]) == multiset(b[..j] + b[j + 1..])
  {
    assert a[0] in multiset(b);
    assert a[0] in b;
    j :| 0 <= j < |b| && b[j] == a[0];
    RemoveHead(a);
    RemoveOne(b, j);
  }

  lemma RemoveHead<T>(s: seq<T>)
    requires |s| > 0
    ensures multiset(s[1..]) == multiset(s) - multiset{s[0]}
  {
    assert s == [s[0]] + s[1..];
  }

  /** Dropping position `j` removes one copy of `s[j]` from the multiset. */
  lemma RemoveOne<T>(s: seq<T>, j: nat)
    requires j < |s|
    ensures multiset(s[..j] + s[j + 1..]) == multiset(s) - multiset{s[j]}
  {
    assert s == s[..j] + [s[j]] + s[j + 1..];
  }

  /** The reference sum is the share of position `j` plus the sum of the rest. */
  lemma ContributionRemove(b: seq<Entry>, j: nat, wallet: string, decimals: nat)
    requires j < |b|
    ensures Contribution(b, wallet, decimals)
              == Add(if b[j].owner == wallet then Scaled(b[j].raw, decimals) else NoHolding,
                     Contribution(b[..j] + b[j + 1..], wallet, decimals))
  {
    var pre, post := b[..j], b[j + 1..];
    var share := if b[j].owner == wallet then Scaled(b[j].raw, decimals) else NoHolding;
    var cPre, cPost := Contribution(pre, wallet, decimals), Contribution(post, wallet, decimals);
    ContributionSplitAt(b, j, wallet, decimals);
    ContributionSingle(b[j], wallet, decimals);
    AddSwap(cPre, share, cPost);
    ContributionAppend(pre, post, wallet, decimals);
  }

  /** The reference sum splits around any position. */
  lemma ContributionSplitAt(b: seq<Entry>, j: nat, wallet: string, decimals: nat)
    requires j < |b|
    ensures Contribution(b, wallet, decimals)
              == Add(Add(Contribution(b[..j], wallet, decimals), Contribution([b[j]], wallet, decimals)),
                     Contribution(b[j + 1..], wallet, decimals))
  {
    assert b == b[..j] + [b[j]] + b[j + 1..];
    ContributionAppend(b[..j] + [b[j]], b[j + 1..], wallet, decimals);
    ContributionAppend(b[..j], [b[j]], wallet, decimals);
  }

  /** A single entry contributes its scaled amounts to its own wallet and
      nothing to any other. */
  lemma ContributionSingle(e: Entry, wallet: string, decimals: nat)
    ensures Contribution([e], wallet, decimals) == if e.owner == wallet then Scaled(e.raw, decimals) else NoHolding
  {
    assert [e][1..] == [];
  }

  /** Moving the middle term of a sum to the front leaves the sum unchanged. */
  lemma AddSwap(a: Holding, b: Holding, c: Holding)
    ensures Add(Add(a, b), c) == Add(b, Add(a, c))
  {
  }

  /** Folding the same multiset of entries in any order gives every wallet
      the same total. */
  lemma AccumulateOrderIndependent(a: seq<Entry>, b: seq<Entry>, decimals: nat, wallet: string)
    requires multiset(a) == multiset(b)
    ensures HoldingOf(Accumulate([], a, decimals), wallet) == HoldingOf(Accumulate([], b, decimals), wallet)
  {
    AccumulateTotals([], a, decimals, wallet);
    AccumulateTotals([], b, decimals, wallet);
    ContributionPermutation(a, b, wallet, decimals);
  }

  /** The single-wallet accumulator: a record of another wallet leaves the
      row as it is; a record of the row's own wallet adds its scaled
      amounts to all five fields. */
  function UpdateResultUserTokens(data: ResultAccount, walletAddress: string, raw: Holding, decimals: nat): (r: ResultAccount)
    ensures r.walletAddress == data.walletAddress
    ensures data.walletAddress != walletAddress ==> r == data
    ensures data.walletAddress == walletAddress ==> [r] == UpdateResultAccount([data], walletAddress, raw, decimals)
  {
    if data.walletAddress != walletAddress then data
    else ResultAccount(data.walletAddress, Add(data.holding, Scaled(raw, decimals)))
  }

  /** The user view folds its records into one row, in order. */
  function AccumulateUser(row: ResultAccount, entries: seq<Entry>, decimals: nat): ResultAccount
    decreases |entries|
  {
    if |entries| == 0 then row
    else AccumulateUser(UpdateResultUserTokens(row, entries[0].owner, entries[0].raw, decimals), entries[1..], decimals)
  }

  /** Folding into one row adds exactly that wallet's scaled records and
      ignores every other wallet's. */
  lemma {:induction false} AccumulateUserTotals(row: ResultAccount, entries: seq<Entry>, decimals: nat)
    ensures AccumulateUser(row, entries, decimals)
              == ResultAccount(row.walletAddress, Add(row.holding, Contribution(entries, row.walletAddress, decimals)))
    decreases |entries|
  {
    if |entries| > 0 {
      var own := if entries[0].owner == row.walletAddress then Scaled(entries[0].raw, decimals) else NoHolding;
      var next := UpdateResultUserTokens(row, entries[0].owner, entries[0].raw, decimals);
      assert next == ResultAccount(row.walletAddress, Add(row.holding, own));
      AccumulateUserTotals(next, entries[1..], decimals);
      AddAssociative(row.holding, own, Contribution(entries[1..], row.walletAddress, decimals));
    }
  }

  /** On its own wallet the single-row update adds, to each of the five
      fields, the raw amount divided by `10^decimals`. */
  lemma UserUpdateAddsScaled(data: ResultAccount, raw: Holding, decimals: nat)
    ensures var r := UpdateResultUserTokens(data, data.walletAddress, raw, decimals);
            && r.holding.ptAmount * Pow10(decimals) == data.holding.ptAmount * Pow10(decimals) + raw.ptAmount
            && r.holding.ytAmount * Pow10(decimals) == data.holding.ytAmount * Pow10(decimals) + raw.ytAmount
            && r.holding.lpAmount * Pow10(decimals) == data.holding.lpAmount * Pow10(decimals) + raw.lpAmount
            && r.holding.lpPtAmount * Pow10(decimals) == data.holding.lpPtAmount * Pow10(decimals) + raw.lpPtAmount
            && r.holding.lpYtAmount * Pow10(decimals) == data.holding.lpYtAmount * Pow10(decimals) + raw.lpYtAmount
  {
    ScaledInverse(raw, decimals);
    var r := UpdateResultUserTokens(data, data.walletAddress, raw, decimals);
    var u := Pow10(decimals);
    var s := Scaled(raw, decimals);
    assert r.holding == Add(data.holding, s);
    Distribute(data.holding.ptAmount, s.ptAmount, u);
    Distribute(data.holding.ytAmount, s.ytAmount, u);
    Distribute(data.holding.lpAmount, s.lpAmount, u);
    Distribute(data.holding.lpPtAmount, s.lpPtAmount, u);
    Distribute(data.holding.lpYtAmount, s.lpYtAmount, u);
  }

  lemma Distribute(a: real, b: real, u: real)
    ensures (a + b) * u == a * u + b * u
  {
  }

  lemma AddAssociative(a: Holding, b: Holding, c: Holding)
    ensures Add(Add(a, b), c) == Add(a, Add(b, c))
  {
  }

  /** Starting from an empty row, the single-wallet fold gives that wallet
      the same totals as the multi-wallet fold over the same records. */
  lemma AccumulateUserMatchesAccumulate(wallet: string, entries: seq<Entry>, decimals: nat)
    ensures AccumulateUser(ResultAccount(wallet, NoHolding), entries, decimals).holding
              == HoldingOf(Accumulate([], entries, decimals), wallet)
  {
    AccumulateUserTotals(ResultAccount(wallet, NoHolding), entries, decimals);
    AccumulateTotals([], entries, decimals, wallet);
  }

  /** Entries of other wallets contribute nothing. */
  lemma {:induction false} NoOwnedEntries(entries: seq<Entry>, wallet: string, decimals: nat)
    requires forall i | 0 <= i < |entries| :: entries[i].owner != wallet
    ensures Contribution(entries, wallet, decimals) == NoHolding
  {
    if |entries| > 0 {
      NoOwnedEntries(entries[1..], wallet, decimals);
    }
  }
}
