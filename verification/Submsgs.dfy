/** Classification of a submessage and extraction of the coins it spends. */
module Submsgs {
  import opened Prelude

  datatype BankMsg =
    | Send(toAddress: string, amount: seq<Coin>)
    | Burn(amount: seq<Coin>)

  datatype Cw20ExecuteMsg =
    | Transfer(recipient: string, amount: U128)
    | Burn(amount: U128)
    | Send(contract: string, amount: U128, msg: string)
    | IncreaseAllowance(spender: string, amount: U128)
    | DecreaseAllowance(spender: string, amount: U128)
    | TransferFrom(owner: string, recipient: string, amount: U128)
    | SendFrom(owner: string, contract: string, amount: U128, msg: string)
    | BurnFrom(owner: string, amount: U128)
    | Mint(recipient: string, amount: U128)
    | UpdateMarketing(project: string, description: string, marketing: string)
    | UploadLogo(logo: string)

  /** The binary payload of a contract call, as the CW20 decoder sees it. */
  datatype Payload = Cw20(call: Cw20ExecuteMsg) | Undecodable(raw: string)

  /** `OtherMsg` is every message kind that neither the gate nor the query names. */
  datatype CosmosMsg =
    | Bank(bank: BankMsg)
    | WasmExecute(contractAddr: string, payload: Payload, funds: seq<Coin>)
    | Delegate(validator: string, amount: Coin)
    | Distribution(content: string)
    | Custom
    | OtherMsg(content: string)

  datatype WasmmsgType =
    | Cw20Transfer
    | Cw20Burn
    | Cw20Send
    | Cw20IncreaseAllowance
    | Cw20DecreaseAllowance
    | Cw20TransferFrom
    | Cw20SendFrom
    | Cw20BurnFrom
    | Cw20Mint
    | Cw20UpdateMarketing
    | Cw20UploadLogo

  datatype SubmsgType = BankSend | BankBurn | ExecuteWasm(wasm: WasmmsgType) | Unknown {
    /** The types whose coins go through the debt and limit check. */
    predicate Limited() {
      match this
      case BankSend => true
      case BankBurn => true
      case ExecuteWasm(wasm) => wasm.Cw20Transfer? || wasm.Cw20Send? || wasm.Cw20Burn? || wasm.Cw20IncreaseAllowance?
      case Unknown => false
    }
  }

  function WasmTypeOf(call: Cw20ExecuteMsg): WasmmsgType {
    match call
    case Transfer(_, _) => Cw20Transfer
    case Burn(_) => Cw20Burn
    case Send(_, _, _) => Cw20Send
    case IncreaseAllowance(_, _) => Cw20IncreaseAllowance
    case DecreaseAllowance(_, _) => Cw20DecreaseAllowance
    case TransferFrom(_, _, _) => Cw20TransferFrom
    case SendFrom(_, _, _, _) => Cw20SendFrom
    case BurnFrom(_, _) => Cw20BurnFrom
    case Mint(_, _) => Cw20Mint
    case UpdateMarketing(_, _, _) => Cw20UpdateMarketing
    case UploadLogo(_) => Cw20UploadLogo
  }

  function TypeOf(msg: CosmosMsg): SubmsgType {
    match msg
    case Bank(Send(_, _)) => BankSend
    case Bank(Burn(_)) => BankBurn
    case WasmExecute(_, Cw20(call), _) => ExecuteWasm(WasmTypeOf(call))
    case _ => Unknown
  }

  /** The tokens of the called contract that the holder gives up, or gives an allowance for. */
  function TokensSpent(call: Cw20ExecuteMsg): Option<U128> {
    match call
    case Transfer(_, amount) => Some(amount)
    case Burn(amount) => Some(amount)
    case Send(_, amount, _) => Some(amount)
    case IncreaseAllowance(_, amount) => Some(amount)
    case _ => None
  }

  /** What a message spends: its own coins in order, then the tokens under the contract's address. */
  function SpentFunds(msg: CosmosMsg): seq<Coin> {
    match msg
    case Bank(bank) => bank.amount
    case WasmExecute(contractAddr, Cw20(call), funds) =>
      (match TokensSpent(call)
       case Some(amount) => funds + [Coin(contractAddr, amount)]
       case None => funds)
    case WasmExecute(_, Undecodable(_), funds) => funds
    case _ => []
  }

  /** The coins a message takes from its sender's limit, kind by kind; other kinds take none. */
  predicate GivesUp(msg: CosmosMsg, coins: seq<Coin>) {
    match msg
    case Bank(Send(_, amount)) => coins == amount
    case Bank(Burn(amount)) => coins == amount
    case WasmExecute(token, Cw20(Transfer(_, amount)), attached) => coins == attached + [Coin(token, amount)]
    case WasmExecute(token, Cw20(Burn(amount)), attached) => coins == attached + [Coin(token, amount)]
    case WasmExecute(token, Cw20(Send(_, amount, _)), attached) => coins == attached + [Coin(token, amount)]
    case WasmExecute(token, Cw20(IncreaseAllowance(_, amount)), attached) => coins == attached + [Coin(token, amount)]
    case _ => false
  }

  class PendingSubmsg {
    const msg: CosmosMsg
    var contractAddr: Option<string>
    var binarymsg: Option<Payload>
    var funds: seq<Coin>
    var ty: SubmsgType

    constructor (msg: CosmosMsg)
      ensures this.msg == msg && contractAddr == None && binarymsg == None && funds == [] && ty == Unknown
    {
      this.msg := msg;
      contractAddr, binarymsg, funds, ty := None, None, [], Unknown;
    }

    method AddFunds(more: seq<Coin>)
      modifies this`funds
      ensures funds == old(funds) + more
    {
      for i := 0 to |more|
        invariant funds == old(funds) + more[..i]
      {
        funds := funds + [more[i]];
      }
    }

    /**
     Whatever funds were pushed in before, a limited message ends up with exactly the coins
     it spends itself.
     */
    method ProcessAndGetMsgType() returns (r: SubmsgType)
      modifies this
      ensures r == TypeOf(msg)
      ensures r.Limited() ==> funds == SpentFunds(msg) && GivesUp(msg, funds)
      ensures msg.WasmExecute? && !r.Limited() ==> funds == msg.funds
    {
      match msg
      case WasmExecute(addr, payload, attached) =>
        contractAddr := Some(addr);
        binarymsg := Some(payload);
        funds := attached;
        ty := ProcessExecuteType();
        return ty;
      case Bank(_) =>
        contractAddr := None;
        binarymsg := None;
        funds := [];
        ty := ProcessBankType();
        return ty;
      case _ =>
        return Unknown;
    }

    method ProcessExecuteType() returns (r: SubmsgType)
      modifies this`funds
      ensures match binarymsg
              case Some(Cw20(call)) =>
                && r == ExecuteWasm(WasmTypeOf(call))
                && funds == old(funds) + (if contractAddr.Some? && TokensSpent(call).Some?
                                          then [Coin(contractAddr.value, TokensSpent(call).value)] else [])
              case _ => r == Unknown && funds == old(funds)
    {
      match binarymsg
      case Some(Cw20(Transfer(_, amount))) =>
        PushTokens(amount);
        return ExecuteWasm(Cw20Transfer);
      case Some(Cw20(Burn(amount))) =>
        PushTokens(amount);
        return ExecuteWasm(Cw20Burn);
      case Some(Cw20(Send(_, amount, _))) =>
        PushTokens(amount);
        return ExecuteWasm(Cw20Send);
      case Some(Cw20(IncreaseAllowance(_, amount))) =>
        PushTokens(amount);
        return ExecuteWasm(Cw20IncreaseAllowance);
      case Some(Cw20(call)) =>
        return ExecuteWasm(WasmTypeOf(call));
      case _ =>
        return Unknown;
    }

    method PushTokens(amount: U128)
      modifies this`funds
      ensures funds == old(funds) + (if contractAddr.Some? then [Coin(contractAddr.value, amount)] else [])
    {
      if contractAddr.Some? {
        funds := funds + [Coin(contractAddr.value, amount)];
      }
    }

    method ProcessBankType() returns (r: SubmsgType)
      modifies this`funds
      ensures match msg
              case Bank(bank) =>
                && r == (if bank.Send? then BankSend else BankBurn)
                && funds == old(funds) + bank.amount
              case _ => r == Unknown && funds == old(funds)
    {
      match msg
      case Bank(bank) =>
        AddFunds(bank.amount);
        return if bank.Send? then BankSend else BankBurn;
      case _ =>
        return Unknown;
    }
  }

  /**
   The limited messages are exactly the bank messages and the CW20 calls that give up the
   sender's own tokens; each is charged exactly the coins it gives up. The unknown messages
   are those that are neither bank messages nor decoded CW20 calls.
   */
  lemma LimitedMeansSpending(msg: CosmosMsg)
    ensures TypeOf(msg).Limited() <==> exists coins :: GivesUp(msg, coins)
    ensures forall coins :: GivesUp(msg, coins) <==> TypeOf(msg).Limited() && coins == SpentFunds(msg)
    ensures TypeOf(msg).Unknown? <==> !msg.Bank? && !(msg.WasmExecute? && msg.payload.Cw20?)
  {
    assert TypeOf(msg).Limited() ==> GivesUp(msg, SpentFunds(msg));
  }
}
