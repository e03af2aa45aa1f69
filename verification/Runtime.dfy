/** Dispatch, and the runtime that restores the accounts when an instruction fails. */
module Runtime {
  import opened Prelude
  import opened Host
  import opened Protocol
  import opened Ledger
  import opened Steps
  import opened Bank
  import opened Handlers
  import opened SocialHandlers

  /** `processor::process`. */
  method Process(bank: Bank, ix: Instruction) returns (r: Result<Unit>)
    requires bank.host.programId != bank.host.tokenProgram && bank.host.programId != bank.host.token2022Program
    modifies bank`accounts
    ensures Agrees(bank.host, old(bank.W()), Decide(bank.host, old(bank.W()), ix), r, bank.W())
  {
    hide DecideInitialize, DecideExecute, DecideRotateEd25519, DecideRotateFalcon, DecideChangePolicy, DecideRecover,
         DecideSetRecoveryConfig, DecideInitiate, DecideFinalize, DecideCancel, Apply, Payable;
    if ix.data == [] {
      return Err(MalformedInstructionData);
    }
    var payload := ix.data[1..];
    match ix.data[0] {
      case 0 => r := InitializeHandler(bank, ix, payload);
      case 1 => r := ExecuteHandler(bank, ix, payload);
      case 2 => r := RotateEd25519Handler(bank, ix, payload);
      case 3 => r := RotateFalconHandler(bank, ix, payload);
      case 4 => r := ChangePolicyHandler(bank, ix, payload);
      case 5 => r := RecoverHandler(bank, ix, payload);
      case 6 => r := SetRecoveryConfigHandler(bank, ix, payload);
      case 7 => r := InitiateHandler(bank, ix, payload);
      case 8 => r := FinalizeHandler(bank, ix, payload);
      case 9 => r := CancelHandler(bank, ix, payload);
      case _ => r := Err(MalformedInstructionData);
    }
  }

  /** The runtime around an instruction: a failure restores every account, whatever
      had been written by then, and a success drops emptied accounts. What the
      handlers do write by write is one step of the ledger, so every theorem about
      runs holds of them, and they keep the ledger's invariant. */
  method ProcessInstruction(bank: Bank, ix: Instruction) returns (r: Result<Unit>)
    requires HostOk(bank.host)
    modifies bank`accounts
    ensures bank.W() == After(bank.host, old(bank.W()), ix)
    ensures r.Ok? <==> Decide(bank.host, old(bank.W()), ix).Ok?
    ensures r.Err? ==> r.error == Decide(bank.host, old(bank.W()), ix).error && bank.W() == old(bank.W())
    ensures Admissible(bank.host, ix) ==> Step(bank.host, old(bank.W()), Invoke(ix), bank.W())
    ensures Admissible(bank.host, ix) && Inv(bank.host, old(bank.W())) ==> Inv(bank.host, bank.W())
  {
    hide Decide, Apply, HostOk, Inv, Admissible;
    Distinct(bank.host);
    var saved := bank.accounts;
    r := Process(bank, ix);
    if r.Err? {
      bank.accounts := saved;
    } else {
      bank.accounts := Purge(bank.W()).accounts;
    }
    if Admissible(bank.host, ix) && Inv(bank.host, old(bank.W())) {
      StepKeepsInv(bank.host, old(bank.W()), Invoke(ix), bank.W());
    }
  }
}
