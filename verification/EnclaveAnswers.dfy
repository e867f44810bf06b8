/** What the enclave answers and signs, told in the numbers it was given. */
module EnclaveAnswers {
  import opened Prelude
  import opened Digest
  import opened Enclave
  import Decimal
  import Registry

  /** The answer is exact: when a check fails and why, what it says about the vault, and when it signs. */
  lemma AnswerIs(req: Request, answers: VaultReads, guard: Option<Registry.Guard>, keyEnv: KeyEnv, chainEnv: string)
    ensures var r := Check(req, answers, guard, keyEnv, chainEnv);
      var signs := Counted(req, answers, guard) && Danger(answers) && guard.value.active;
      && (r == Failure(BadAddress) <==> req.agentVault.None?)
      && (r == Failure(HealthUnread) <==>
            req.agentVault.Some? && (answers.factors.None? || answers.collateral.None? || answers.feed.None?))
      && (r == Failure(GuardUnread) <==>
            && req.agentVault.Some? && guard.None?
            && answers.factors.Some? && answers.collateral.Some? && answers.feed.Some?)
      && (r == Failure(NoKey) <==> signs && keyEnv.Missing?)
      && (r == Failure(BadKey) <==> signs && keyEnv.Malformed?)
      && (r.Success? ==>
            && r.value.healthy == !Danger(answers)
            && r.value.decision == (if Danger(answers) then TopUpRequired else Watch)
            && r.value.health.liquidatable == Danger(answers)
            && (r.value.signed.Some? <==> signs))
  {
    if Counted(req, answers, guard) {
      DecisionAgreesWithFlag(req.agentVault.value, answers);
    }
  }

  /** Every field of a report reads back as what the chain answered. */
  lemma ReportReadsBack(vault: Address, answers: VaultReads)
    ensures HealthOf(vault, answers).Success?
            <==> answers.factors.Some? && answers.collateral.Some? && answers.feed.Some?
    ensures HealthOf(vault, answers).Success? ==>
      var h, f, feed := HealthOf(vault, answers).value, answers.factors.value, answers.feed.value;
      && h.vault == vault
      && Decimal.Parse(h.liqFactorVaultBIPS) == Some(f.0)
      && Decimal.Parse(h.liqFactorPoolBIPS) == Some(f.1)
      && Decimal.Parse(h.maxLiquidationAmount) == Some(f.2)
      && Decimal.Parse(h.vaultCollateralWei) == Some(answers.collateral.value)
      && Decimal.Prices(h.xrpUsd, feed.0, feed.1)
      && h.liquidatable == (f.0 > 0 || f.1 > 0)
  {
    if HealthOf(vault, answers).Success? {
      Decimal.PrintParse(answers.factors.value.0);
      Decimal.PrintParse(answers.factors.value.1);
      Decimal.PrintParse(answers.factors.value.2);
      Decimal.PrintParse(answers.collateral.value);
      Decimal.PriceTextPrices(answers.feed.value.0, answers.feed.value.1);
    }
  }

  /** A record for this action: the fields, the bytes signed and the signature over them. */
  ghost predicate RecordOf(a: SignedAction, key: Key, chainId: uint64, guardId: uint64, actionType: uint8,
                           amount: uint256, nonce: uint64) {
    && a.guardId == guardId && a.actionType == actionType && Decimal.Parse(a.amount) == Some(amount)
    && a.nonce == nonce && a.chainId == chainId
    && CoversAction(a.digest, chainId, guardId, actionType, amount, nonce)
    && a.signature == key.sign(a.digest) && a.signer == key.address
  }

  lemma RecordIs(key: Key, chainId: uint64, guardId: uint64, actionType: uint8, amount: uint256, nonce: uint64)
    ensures RecordOf(ActionSignedBy(key, chainId, guardId, actionType, amount, nonce), key, chainId, guardId,
                     actionType, amount, nonce)
  {
    Decimal.PrintParse(amount);
    DigestCovers(chainId, guardId, actionType, amount, nonce);
  }

  lemma NextRecord(a: SignedAction, key: Key, chainEnv: string, chainId: uint64, guardId: uint64, amount: uint256,
                   last: uint64)
    requires Selects(chainEnv, chainId)
    requires a == ActionSignedBy(key, ChainIdFrom(chainEnv), guardId, Registry.ACTION_VAULT_TOP_UP, amount,
                                 NextNonce(last))
    ensures RecordOf(a, key, chainId, guardId, 1, amount, if last == 0xFFFF_FFFF_FFFF_FFFF then 0 else last + 1)
  {
    SelectsOne(chainEnv, chainId);
    RecordIs(key, chainId, guardId, 1, amount, NextNonce(last));
  }

  /**
   What a check signs: a top-up of the committed amount for the guard and the chain selected, under the
   nonce after the one it read, which wraps to zero after 2^64 - 1.
   */
  lemma SignsForSelectedChain(req: Request, answers: VaultReads, g: Registry.Guard, key: Key, chainEnv: string,
                              chainId: uint64)
    requires Counted(req, answers, Some(g)) && Danger(answers) && g.active && Selects(chainEnv, chainId)
    ensures var r := Check(req, answers, Some(g), Loaded(key), chainEnv);
      && r.Success? && r.value.signed.Some?
      && RecordOf(r.value.signed.value, key, chainId, req.guardId, 1, g.topUpAmountWei,
                  if g.lastActionNonce == 0xFFFF_FFFF_FFFF_FFFF then 0 else g.lastActionNonce + 1)
  {
    SignsOnlyActiveInDanger(req, answers, g, Loaded(key), chainEnv);
    NextRecord(Check(req, answers, Some(g), Loaded(key), chainEnv).value.signed.value, key, chainEnv, chainId,
               req.guardId, g.topUpAmountWei, g.lastActionNonce);
  }

  /** In particular the chain is the one whose number CHAIN_ID is, and Coston2 if it is no such number. */
  lemma SignsForNumberedChain(req: Request, answers: VaultReads, g: Registry.Guard, key: Key, n: nat)
    requires Counted(req, answers, Some(g)) && Danger(answers) && g.active
    ensures var r := Check(req, answers, Some(g), Loaded(key), Decimal.Print(n));
      && r.Success? && r.value.signed.Some?
      && r.value.signed.value.chainId == (if 0 < n < 0x1_0000_0000_0000_0000 then n else 114)
  {
    Decimal.PrintParse(n);
    SignsForSelectedChain(req, answers, g, key, Decimal.Print(n),
                          if 0 < n < 0x1_0000_0000_0000_0000 then n else 114);
  }
}
