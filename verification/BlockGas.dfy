/** Block gas admission (checkTotalBlockGas in app/app.go) with its 64-bit counters. */
module BlockGas {
  import opened Wrappers
  import opened Integers
  import opened Permutations

  const MIN_GAS_EVM_TX: Uint64 := 21000

  datatype Gasless = Gasless | NotGasless | CheckFailed | CheckPanicked

  /** What the check sees of a transaction. `Evm` is a single EVM message: an association, or a
      transaction whose gas is missing when it does not convert. */
  datatype Kind =
    | Evm(associate: bool, gas: Option<Uint64>)
    | MixedEvm
    | Fee(limit: Uint64)
    | NoFee

  datatype Tx = Undecoded | Tx(kind: Kind, maybeGasless: bool, gasless: Gasless, estimate: Uint64)

  // ---------------------------------------------------------------- what admission means

  predicate GaslessChecked(tx: Tx)
    requires tx.Tx?
  {
    !tx.kind.Evm? && tx.maybeGasless
  }

  /** A transaction that makes the proposal unacceptable whatever the gas. */
  predicate Poison(tx: Tx) {
    || tx.Undecoded?
    || (GaslessChecked(tx) && tx.gasless.CheckPanicked?)
    || (tx.kind.Evm? && !tx.kind.associate && tx.kind.gas.None?)
  }

  /** A transaction whose gas counts. */
  predicate Counted(tx: Tx)
    requires !Poison(tx)
  {
    && !(GaslessChecked(tx) && tx.gasless.Gasless?)
    && (tx.kind.Fee? || (tx.kind.Evm? && !tx.kind.associate))
  }

  function Wanted(tx: Tx): Uint64 {
    if Poison(tx) || !Counted(tx) then 0
    else if tx.kind.Fee? then tx.kind.limit
    else tx.kind.gas.value
  }

  function Charged(tx: Tx): (c: Uint64)
    ensures c <= Wanted(tx)
  {
    if Poison(tx) then 0
    else if MIN_GAS_EVM_TX <= tx.estimate <= Wanted(tx) then tx.estimate else Wanted(tx)
  }

  /** Exact sums. */
  function Sum(f: Tx -> Uint64, txs: seq<Tx>): nat {
    if txs == [] then 0 else Sum(f, txs[..|txs| - 1]) + f(txs[|txs| - 1])
  }

  /** The block is within its limits in exact arithmetic. */
  ghost predicate Admissible(txs: seq<Tx>, maxGasWanted: Int64, maxGas: Int64) {
    && (forall tx :: tx in txs ==> !Poison(tx) && Wanted(tx) < TWO_63)
    && Sum(Wanted, txs) <= AsUint64(maxGasWanted)
    && Sum(Charged, txs) <= AsUint64(maxGas)
  }

  lemma {:induction false} SumPrefix(f: Tx -> Uint64, txs: seq<Tx>, i: nat, j: nat)
    requires i <= j <= |txs|
    ensures Sum(f, txs[..i]) <= Sum(f, txs[..j])
  {
    if i < j {
      SumPrefix(f, txs, i, j - 1);
      assert txs[..j][..j - 1] == txs[..j - 1];
    }
  }

  lemma SumStep(f: Tx -> Uint64, txs: seq<Tx>, i: nat)
    requires i < |txs|
    ensures Sum(f, txs[..i + 1]) == Sum(f, txs[..i]) + f(txs[i])
  {
    assert txs[..i + 1][..i] == txs[..i];
  }

  lemma {:induction false} ChargedAtMostWanted(txs: seq<Tx>)
    ensures Sum(Charged, txs) <= Sum(Wanted, txs)
  {
    if txs != [] {
      ChargedAtMostWanted(txs[..|txs| - 1]);
    }
  }

  /** The guard on the charged total never decides: whenever it fires, the one on the wanted total
      fires too. */
  lemma ChargedGuardImplied(txs: seq<Tx>, gasWanted: Uint64)
    requires Sum(Charged, txs) > TWO_64 - 1 - gasWanted
    ensures Sum(Wanted, txs) > TWO_64 - 1 - gasWanted
  {
    ChargedAtMostWanted(txs);
  }

  // ---------------------------------------------------------------- the loop

  /** A prefix that is over a limit or poisoned makes the whole block inadmissible. */
  lemma PrefixDecides(txs: seq<Tx>, i: nat, maxGasWanted: Int64, maxGas: Int64)
    requires i < |txs|
    requires Poison(txs[i]) || Wanted(txs[i]) >= TWO_63
             || Sum(Wanted, txs[..i + 1]) > AsUint64(maxGasWanted) || Sum(Charged, txs[..i + 1]) > AsUint64(maxGas)
    ensures !Admissible(txs, maxGasWanted, maxGas)
  {
    assert txs[i] in txs && txs[..|txs|] == txs;
    SumPrefix(Wanted, txs, i + 1, |txs|);
    SumPrefix(Charged, txs, i + 1, |txs|);
  }

  /** The gas a transaction asks for, when it is counted. */
  method GasOf(tx: Tx) returns (reject: bool, gasWanted: Option<Uint64>)
    ensures reject == Poison(tx)
    ensures !reject ==> gasWanted == if Counted(tx) then Some(Wanted(tx)) else None
  {
    if tx.Undecoded? {
      return true, None;
    }
    if !tx.kind.Evm? && tx.maybeGasless {
      if tx.gasless.CheckPanicked? {
        return true, None;
      }
      if tx.gasless.Gasless? {
        return false, None;
      }
    }
    match tx.kind {
      case MixedEvm => return false, None;
      case NoFee => return false, None;
      case Fee(limit) => return false, Some(limit);
      case Evm(associate, gas) =>
        if associate {
          return false, None;
        }
        return gas.None?, gas;
    }
  }

  /** checkTotalBlockGas: the wrapping counters decide exactly what the exact sums decide. */
  method CheckTotalBlockGas(txs: seq<Tx>, maxGasWanted: Int64, maxGas: Int64) returns (ok: bool)
    ensures ok <==> Admissible(txs, maxGasWanted, maxGas)
  {
    hide Poison, Counted, Wanted, Charged;
    var totalGas: Uint64, totalGasWanted: Uint64 := 0, 0;
    assert txs[..0] == [];
    for i := 0 to |txs|
      invariant totalGas == Sum(Charged, txs[..i]) && totalGasWanted == Sum(Wanted, txs[..i])
      invariant totalGasWanted <= AsUint64(maxGasWanted) && totalGas <= AsUint64(maxGas)
      invariant forall k :: 0 <= k < i ==> !Poison(txs[k]) && Wanted(txs[k]) < TWO_63
    {
      hide Sum, AsUint64, Admissible;
      var reject, gas := GasOf(txs[i]);
      SumStep(Wanted, txs, i);
      SumStep(Charged, txs, i);
      UncountedIsFree(txs[i]);
      if reject {
        PrefixDecides(txs, i, maxGasWanted, maxGas);
        return false;
      }
      if gas.None? {
        continue;
      }
      var gasWanted := gas.value;
      if AsInt64(gasWanted) < 0 || totalGasWanted > TWO_64 - 1 - gasWanted || totalGas > TWO_64 - 1 - gasWanted {
        ChargedAtMostWanted(txs[..i]);
        PrefixDecides(txs, i, maxGasWanted, maxGas);
        return false;
      }
      totalGasWanted := Add(totalGasWanted, gasWanted);
      var est := txs[i].estimate;
      ChargedOf(txs[i]);
      if est >= MIN_GAS_EVM_TX && est <= gasWanted {
        totalGas := Add(totalGas, est);
      } else {
        totalGas := Add(totalGas, gasWanted);
      }
      if totalGasWanted > AsUint64(maxGasWanted) || totalGas > AsUint64(maxGas) {
        PrefixDecides(txs, i, maxGasWanted, maxGas);
        return false;
      }
    }
    assert txs[..|txs|] == txs;
    return true;
  }

  lemma UncountedIsFree(tx: Tx)
    ensures !Poison(tx) && !Counted(tx) ==> Wanted(tx) == 0 && Charged(tx) == 0
    ensures Poison(tx) ==> Wanted(tx) == 0
    ensures !Poison(tx) ==> tx.Tx?
  {
  }

  lemma ChargedOf(tx: Tx)
    requires !Poison(tx)
    ensures tx.Tx? && Charged(tx) == if MIN_GAS_EVM_TX <= tx.estimate <= Wanted(tx) then tx.estimate else Wanted(tx)
  {
  }

  // ---------------------------------------------------------------- order does not matter

  lemma {:induction false} SumWithout(f: Tx -> Uint64, txs: seq<Tx>, i: nat)
    requires i < |txs|
    ensures Sum(f, txs) == Sum(f, txs[..i] + txs[i + 1..]) + f(txs[i])
  {
    var n := |txs| - 1;
    if i == n {
      assert txs[..i] + txs[i + 1..] == txs[..n];
    } else {
      SumWithout(f, txs[..n], i);
      WithoutBoth(txs, i);
    }
  }

  lemma {:induction false} SumIgnoresOrder(f: Tx -> Uint64, txs: seq<Tx>, us: seq<Tx>)
    requires multiset(txs) == multiset(us)
    ensures Sum(f, txs) == Sum(f, us)
  {
    if txs == [] {
      assert |multiset(us)| == 0;
    } else {
      var i := MatchLast(txs, us);
      SumIgnoresOrder(f, txs[..|txs| - 1], us[..i] + us[i + 1..]);
      SumWithout(f, us, i);
    }
  }

  /** The verdict does not depend on the order of the transactions. */
  lemma VerdictIgnoresOrder(txs: seq<Tx>, us: seq<Tx>, maxGasWanted: Int64, maxGas: Int64)
    requires multiset(txs) == multiset(us)
    ensures Admissible(txs, maxGasWanted, maxGas) <==> Admissible(us, maxGasWanted, maxGas)
  {
    SumIgnoresOrder(Wanted, txs, us);
    SumIgnoresOrder(Charged, txs, us);
    assert forall tx :: (tx in txs <==> tx in multiset(txs)) && (tx in us <==> tx in multiset(us));
  }
}
