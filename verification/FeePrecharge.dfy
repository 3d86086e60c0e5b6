/** Validation of an EVM transaction by the giga executor and the gas fee it pre-charges
    (validateGigaEVMTx and executeEVMTxWithGigaExecutor in app/app.go). */
module FeePrecharge {
  import opened Wrappers
  import opened Integers

  const TWO_256 := TWO_64 * TWO_64 * TWO_64 * TWO_64

  type Uint256 = x: int | 0 <= x < TWO_256

  datatype EthTx = EthTx(
    gas: Uint64, feeCap: int, tipCap: int, value: int, nonce: Uint64,
    isSetCode: bool, isCreate: bool, authorizations: nat, mustAssociateAuthority: bool)

  /** The sender as the state shows it; `derivedBalance` is the balance of the Sei address when that
      is another account. */
  datatype Sender = Sender(
    nonce: Uint64, codeLength: nat, delegated: bool, associated: bool, balance: Uint256,
    derivedBalance: Option<Uint256>)

  datatype Fees = Fees(baseFee: Option<nat>, minimumFee: int)

  datatype Refusal =
    | FeeBelowBase | FeeBelowMinimum | NonceTooHigh | NonceTooLow | NonceMax | SenderNotEoa
    | FeeCapTooWide | TipCapTooWide | TipAboveFeeCap | SetCodeCreates | SetCodeEmpty | InsufficientFunds

  datatype Verdict = Valid(baseFee: nat) | Refused(why: Refusal)

  function BaseFee(f: Fees): nat {
    if f.baseFee.Some? then f.baseFee.value else 0
  }

  /** A big integer of more than 256 bits. */
  predicate TooWide(x: int) {
    x >= TWO_256 || -x >= TWO_256
  }

  function Available(s: Sender): nat {
    if !s.associated && s.derivedBalance.Some? then s.balance + s.derivedBalance.value else s.balance
  }

  /** validateGigaEVMTx, check by check. */
  function Validate(f: Fees, s: Sender, tx: EthTx): Verdict {
    if tx.feeCap < BaseFee(f) then Refused(FeeBelowBase)
    else if tx.feeCap < f.minimumFee then Refused(FeeBelowMinimum)
    else if tx.nonce > s.nonce then Refused(NonceTooHigh)
    else if tx.nonce < s.nonce then Refused(NonceTooLow)
    else if (s.nonce + 1) % TWO_64 < s.nonce then Refused(NonceMax)
    else if s.codeLength > 0 && !s.delegated then Refused(SenderNotEoa)
    else if TooWide(tx.feeCap) then Refused(FeeCapTooWide)
    else if TooWide(tx.tipCap) then Refused(TipCapTooWide)
    else if tx.tipCap > tx.feeCap then Refused(TipAboveFeeCap)
    else if tx.isSetCode && tx.isCreate then Refused(SetCodeCreates)
    else if tx.isSetCode && tx.authorizations == 0 then Refused(SetCodeEmpty)
    else if Available(s) < tx.gas * tx.feeCap + tx.value then Refused(InsufficientFunds)
    else Valid(BaseFee(f))
  }

  /** What the stateless checks ahead of the executor leave through. */
  predicate StatelessChecked(tx: EthTx) {
    tx.value >= 0 && tx.tipCap >= 0
  }

  datatype Outcome =
    | Abort                                   // hand the transaction to V2
    | Panic                                   // the fee has more than 256 bits
    | ChargeFailed                            // the balance is short, and an error is recorded
    | Precharged(fee: Uint256, left: Uint256)

  function EffectivePrice(baseFee: nat, tx: EthTx): int {
    var price := tx.tipCap + baseFee;
    if price > tx.feeCap then tx.feeCap else price
  }

  /** The conversion of a big integer of at most 256 bits: a negative one wraps around. */
  function Converted(x: int): Uint256 {
    x % TWO_256
  }

  /** The part of executeEVMTxWithGigaExecutor up to the fee subtraction. */
  function Precharge(f: Fees, s: Sender, tx: EthTx): Outcome {
    match Validate(f, s, tx)
    case Refused(_) => Abort
    case Valid(baseFee) =>
      if !s.associated || tx.mustAssociateAuthority then Abort
      else
        var gasFee := tx.gas * EffectivePrice(baseFee, tx);
        if TooWide(gasFee) then Panic
        else if s.balance < Converted(gasFee) then ChargeFailed
        else Precharged(Converted(gasFee), s.balance - Converted(gasFee))
  }

  lemma MulMonotone(k: nat, a: int, b: int)
    requires a <= b
    ensures k * a <= k * b
  {
  }

  lemma FeeBounds(f: Fees, s: Sender, tx: EthTx)
    requires StatelessChecked(tx) && Validate(f, s, tx).Valid? && s.associated
    ensures Validate(f, s, tx).baseFee == BaseFee(f)
    ensures 0 <= tx.gas * BaseFee(f) <= tx.gas * EffectivePrice(BaseFee(f), tx) <= tx.gas * tx.feeCap
    ensures tx.gas * tx.feeCap + tx.value <= s.balance
  {
    var price := EffectivePrice(BaseFee(f), tx);
    MulMonotone(tx.gas, BaseFee(f), price);
    MulMonotone(tx.gas, price, tx.feeCap);
    MulMonotone(tx.gas, 0, BaseFee(f));
  }

  lemma ConvertedValue(x: int)
    requires -TWO_256 < x < TWO_256
    ensures Converted(x) == if x < 0 then TWO_256 + x else x
  {
  }

  /** Every associated transaction that passes validation is charged, the conversion and the
      subtraction cannot fail, and the fee is the one EIP-1559 prescribes: at least the base fee, at
      most the fee cap, for all the gas, with the value still covered. */
  lemma FeeIsCovered(f: Fees, s: Sender, tx: EthTx)
    requires StatelessChecked(tx)
    ensures Precharge(f, s, tx).Abort? || Precharge(f, s, tx).Precharged?
    ensures Precharge(f, s, tx).Precharged? <==> Validate(f, s, tx).Valid? && s.associated && !tx.mustAssociateAuthority
    ensures Precharge(f, s, tx).Precharged? ==>
              var p := Precharge(f, s, tx);
              && tx.gas * BaseFee(f) <= p.fee <= tx.gas * tx.feeCap
              && (tx.tipCap + BaseFee(f) <= tx.feeCap ==> p.fee == tx.gas * (tx.tipCap + BaseFee(f)))
              && p.left == s.balance - p.fee && p.left >= tx.value
  {
    hide Converted, Validate;
    if Validate(f, s, tx).Valid? && s.associated && !tx.mustAssociateAuthority {
      FeeBounds(f, s, tx);
      ConvertedValue(tx.gas * EffectivePrice(BaseFee(f), tx));
    }
  }

  /** Without the stateless check on the tip, the charge is the fee exactly when the price is not
      negative; a negative fee wraps around, and the charge then needs a balance it does not find. */
  lemma NegativePriceMischarged(f: Fees, s: Sender, tx: EthTx)
    requires tx.value >= 0 && Validate(f, s, tx).Valid? && s.associated && !tx.mustAssociateAuthority
    ensures var p, fee := Precharge(f, s, tx), tx.gas * EffectivePrice(BaseFee(f), tx);
            && (p.Precharged? && p.fee == fee <==> tx.gas == 0 || tx.tipCap + BaseFee(f) >= 0)
            && (fee < 0 && s.balance < TWO_256 + fee ==> p.ChargeFailed?)
            && (fee <= -TWO_256 <==> p.Panic?)
  {
    var price := EffectivePrice(BaseFee(f), tx);
    MulMonotone(tx.gas, price, tx.feeCap);
    MulMonotone(tx.gas, 0, tx.feeCap);
    if price < 0 {
      if tx.gas > 0 {
        NegativeProduct(tx.gas, price);
      }
    } else {
      MulMonotone(tx.gas, 0, price);
    }
    if tx.gas * price > -TWO_256 {
      hide Converted;
      ConvertedValue(tx.gas * price);
    }
  }

  lemma NegativeProduct(k: nat, a: int)
    requires k > 0 && a < 0
    ensures k * a < 0
  {
  }

  /** The first failing check names the refusal, so a transaction is valid exactly when none fails. */
  lemma ValidExactly(f: Fees, s: Sender, tx: EthTx)
    requires StatelessChecked(tx)
    ensures Validate(f, s, tx).Valid? <==>
              && BaseFee(f) <= tx.feeCap < TWO_256 && f.minimumFee <= tx.feeCap && tx.tipCap <= tx.feeCap
              && tx.nonce == s.nonce < TWO_64 - 1
              && (s.codeLength == 0 || s.delegated)
              && (tx.isSetCode ==> !tx.isCreate && tx.authorizations > 0)
              && tx.gas * tx.feeCap + tx.value <= Available(s)
  {
  }
}
