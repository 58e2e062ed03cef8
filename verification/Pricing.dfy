/**
 Price queries: the stored pair table, the direction of a query, and the conversion of a
 coin to USDC (or of a USDC debt to a coin). The exchange itself is an arbitrary function.
 */
module Pricing {
  import opened Prelude

  const AXL_USDC := "ibc/EAC38D55372F38F1AFD68DF7FE9EF762DCF69F26520643CF3F9D292A738D8034"
  const DEX_DENOM := "uloop"
  const MAINNET_ID := "juno-1"
  const TESTNET_ID := "uni-3"
  const MAINNET_DENOM := "ujuno"
  const TESTNET_DENOM := "ujunox"
  const LOCAL_DENOM := "testtokens"
  const TESTNET_DUMMY_CONTRACT := "juno1xy4n2tqzrlvemuhjmcwlluxufflahh6rgzyzudtss2mfv7yt37as9g6yq2"

  // ----- queries to an exchange pair

  datatype DexQueryMsgType = ReverseSimulation | Simulation | Token1ForToken2Price | Token2ForToken1Price

  datatype DexQueryMsgFormatted =
    | ReverseSimulationMsg(askDenom: string, amount: U128)
    | SimulationMsg(offerDenom: string, amount: U128)
    | Token1ForToken2Msg(token1Amount: U128)
    | Token2ForToken1Msg(token2Amount: U128)

  datatype DexQueryMsg = DexQueryMsg(ty: DexQueryMsgType, denom: string, amount: U128) {
    function FormatQueryMsg(reverse: bool): DexQueryMsgFormatted {
      var turned := if !reverse then ty else
        match ty
        case ReverseSimulation => Simulation
        case Simulation => ReverseSimulation
        case Token1ForToken2Price => Token2ForToken1Price
        case Token2ForToken1Price => Token1ForToken2Price;
      match turned
      case ReverseSimulation => ReverseSimulationMsg(denom, amount)
      case Simulation => SimulationMsg(denom, amount)
      case Token1ForToken2Price => Token1ForToken2Msg(amount)
      case Token2ForToken1Price => Token2ForToken1Msg(amount)
    }
  }

  /** An exchange's answer, reduced to the two fields the contract may read from it. */
  datatype DexAnswer = DexAnswer(token1Amount: Option<U128>, token2Amount: Option<U128>)

  /** The exchange: a contract address and a query give an answer, or the query fails. */
  type Dex = (string, DexQueryMsgFormatted) -> Option<DexAnswer>

  datatype PairMessageType = LoopType | JunoType

  datatype PairContract = PairContract(
    contractAddr: string,
    denom1: string,
    denom2: string,
    queryFormat: PairMessageType) {

    /** The query to send and the asset its answer is counted in. */
    function CreateQueryMsg(amount: U128, flipAssets: bool): (DexQueryMsgFormatted, string) {
      match queryFormat
      case LoopType =>
        (DexQueryMsg(Simulation, denom1, amount).FormatQueryMsg(flipAssets), denom2)
      case JunoType =>
        (DexQueryMsg(Token1ForToken2Price, denom1, amount).FormatQueryMsg(flipAssets),
         if flipAssets then denom1 else denom2)
    }

    function ProcessQuery(dex: Dex, query: DexQueryMsgFormatted, flipAssets: bool, responseAsset: string): Result<Coin>
    {
      match dex(contractAddr, query)
      case None => Err(PriceCheckFailed(contractAddr))
      case Some(answer) =>
        match if flipAssets then answer.token1Amount else answer.token2Amount
        case None => Err(PriceCheckFailed(contractAddr))
        case Some(tally) => Ok(Coin(responseAsset, tally))
    }

    function QueryContract(dex: Dex, amount: U128, reverse: bool, amountIsTarget: bool,
                           reverseMessageType: bool): Result<Coin>
    {
      var targetFlip := if reverseMessageType then !amountIsTarget else amountIsTarget;
      var flipAssets := if reverse then !targetFlip else targetFlip;
      var (query, responseAsset) := CreateQueryMsg(amount, flipAssets);
      ProcessQuery(dex, query, flipAssets, responseAsset)
    }

    predicate Joins(d1: string, d2: string) {
      (denom1 == d1 && denom2 == d2) || (denom2 == d1 && denom1 == d2)
    }
  }

  // ----- the pair table

  /** The first pair that joins the two denoms; the flag says that it is stored the other way round. */
  function FindPair(pairs: seq<PairContract>, denoms: (string, string)): Result<(PairContract, bool)> {
    if pairs == [] then Err(PairContractNotFound(denoms.0, denoms.1))
    else if pairs[0].denom1 == denoms.0 && pairs[0].denom2 == denoms.1 then Ok((pairs[0], false))
    else if pairs[0].denom2 == denoms.0 && pairs[0].denom1 == denoms.1 then Ok((pairs[0], true))
    else FindPair(pairs[1..], denoms)
  }

  const MAINNET_USDC_ULOOP := "juno1utkr0ep06rkxgsesq6uryug93daklyd6wneesmtvxjkz0xjlte9qdj2s8q"
  const MAINNET_UJUNO_ULOOP := "juno1qc8mrs3hmxm0genzrd92akja5r0v7mfm6uuwhktvzphhz9ygkp8ssl4q07"
  const MAINNET_UJUNO_USDC := "juno1ctsmp54v79x7ea970zejlyws50cj9pkrmw49x46085fn80znjmpqz2n642"
  const LOCAL_USDC_ULOOP := "local_usdc_to_uloop_fake"
  const LOCAL_UJUNO_ULOOP := "local_ujuno_to_uloop_fake"
  const LOCAL_UJUNO_USDC := "local_ujuno_to_usdc_fake"

  const MAINNET_PAIRS: seq<PairContract> := [
    PairContract(MAINNET_USDC_ULOOP, AXL_USDC, DEX_DENOM, LoopType),
    PairContract(MAINNET_UJUNO_ULOOP, MAINNET_DENOM, DEX_DENOM, LoopType),
    PairContract(MAINNET_UJUNO_USDC, MAINNET_DENOM, AXL_USDC, JunoType)
  ]

  const TESTNET_PAIRS: seq<PairContract> := [
    PairContract(TESTNET_DUMMY_CONTRACT, AXL_USDC, DEX_DENOM, LoopType),
    PairContract(TESTNET_DUMMY_CONTRACT, TESTNET_DENOM, DEX_DENOM, LoopType),
    PairContract(TESTNET_DUMMY_CONTRACT, TESTNET_DENOM, AXL_USDC, JunoType)
  ]

  const LOCAL_PAIRS: seq<PairContract> := [
    PairContract(LOCAL_USDC_ULOOP, AXL_USDC, DEX_DENOM, LoopType),
    PairContract(LOCAL_UJUNO_ULOOP, LOCAL_DENOM, DEX_DENOM, LoopType),
    PairContract(LOCAL_UJUNO_USDC, LOCAL_DENOM, AXL_USDC, JunoType)
  ]

  /** The pair table of a network, fixed when the contract is instantiated. */
  function PairsOf(network: string): Result<seq<PairContract>> {
    if network == MAINNET_ID then Ok(MAINNET_PAIRS)
    else if network == TESTNET_ID then Ok(TESTNET_PAIRS)
    else if network == "local" then Ok(LOCAL_PAIRS)
    else if network == "EMPTY" then Ok([])
    else Err(UnsupportedChain(network))
  }

  // ----- conversion

  /** Everything a price depends on: the stored pair table and the exchange. */
  datatype Market = Market(pairs: seq<PairContract>, dex: Dex) {
    function GetPriceFromSimulation(denoms: (string, string), amount: U128, targetAmount: bool,
                                    reverseMessageType: bool): Result<Coin>
    {
      var (pair, reversed) :- FindPair(pairs, denoms);
      pair.QueryContract(dex, amount, reversed, targetAmount, reverseMessageType)
    }

    function SimulateSwap(denoms: (string, string), amount: U128): Result<Coin> {
      GetPriceFromSimulation(denoms, amount, false, false)
    }

    function SimulateReverseSwap(denoms: (string, string), amount: U128): Result<Coin> {
      GetPriceFromSimulation(denoms, amount, true, true)
    }

    /** `reverse` is set when the amount is a USDC target, for fees. */
    function GetConvertedToUsdc(coin: Coin, reverse: bool): Result<Coin> {
      if coin.denom == AXL_USDC then Ok(coin)
      else if reverse then SimulateReverseSwap((AXL_USDC, coin.denom), coin.amount)
      else SimulateSwap((coin.denom, AXL_USDC), coin.amount)
    }

    /** The debt expressed in the asset being spent; only three denoms and USDC are supported. */
    function ConvertDebtToAssetSpent(debt: U128, denom: string): Result<Coin> {
      if denom == AXL_USDC then Ok(Coin(AXL_USDC, debt))
      else if denom == MAINNET_DENOM || denom == TESTNET_DENOM || denom == LOCAL_DENOM then
        GetConvertedToUsdc(Coin(denom, debt), true)
      else Err(RepayFeesFirst(debt))
    }
  }

  // ----- the direction of a query

  /** What a Juno-type query means at a pair: this amount of `given` is offered for `wanted`. */
  predicate Offers(pair: PairContract, query: DexQueryMsgFormatted, given: string, amount: U128, wanted: string) {
    match query
    case Token1ForToken2Msg(a) => a == amount && pair.denom1 == given && pair.denom2 == wanted
    case Token2ForToken1Msg(a) => a == amount && pair.denom2 == given && pair.denom1 == wanted
    case _ => false
  }

  /** The part of an answer that counts the asset the query wants. */
  function Received(query: DexQueryMsgFormatted, answer: DexAnswer): Option<U128> {
    match query
    case Token1ForToken2Msg(_) => answer.token2Amount
    case Token2ForToken1Msg(_) => answer.token1Amount
    case _ => None
  }

  /** The table search returns the first pair that joins the denoms, with its stored order. */
  lemma {:induction false} FindPairIsFirst(pairs: seq<PairContract>, denoms: (string, string))
    ensures FindPair(pairs, denoms).Err? <==> forall p :: p in pairs ==> !p.Joins(denoms.0, denoms.1)
    ensures FindPair(pairs, denoms).Ok? ==>
              var (pair, reversed) := FindPair(pairs, denoms).value;
              && (exists i :: 0 <= i < |pairs| && pairs[i] == pair
                              && forall j :: 0 <= j < i ==> !pairs[j].Joins(denoms.0, denoms.1))
              && (if reversed then pair.denom2 == denoms.0 && pair.denom1 == denoms.1
                  else pair.denom1 == denoms.0 && pair.denom2 == denoms.1)
  {
    if pairs != [] && !pairs[0].Joins(denoms.0, denoms.1) {
      FindPairIsFirst(pairs[1..], denoms);
      if FindPair(pairs, denoms).Ok? {
        var pair := FindPair(pairs, denoms).value.0;
        var i :| 0 <= i < |pairs[1..]| && pairs[1..][i] == pair
                 && forall j :: 0 <= j < i ==> !pairs[1..][j].Joins(denoms.0, denoms.1);
        assert pairs[i + 1] == pair;
        forall j | 0 <= j < i + 1
          ensures !pairs[j].Joins(denoms.0, denoms.1)
        {
          if j > 0 {
            assert pairs[j] == pairs[1..][j - 1];
          }
        }
      }
    }
  }

  /**
   Whichever way round a Juno-type pair is stored, a swap and a reverse swap send the same
   query: it offers the amount in the first denom for the second, and the answer is read
   and labelled in the second. A coin is converted to USDC by offering it for USDC, and a
   USDC target is converted by offering USDC for the coin's denom.
   */
  lemma JunoQueryDirection(m: Market, denoms: (string, string), amount: U128) returns (query: DexQueryMsgFormatted)
    requires FindPair(m.pairs, denoms).Ok? && FindPair(m.pairs, denoms).value.0.queryFormat == JunoType
    ensures var pair := FindPair(m.pairs, denoms).value.0;
            var price := m.SimulateSwap(denoms, amount);
            && m.SimulateReverseSwap(denoms, amount) == price
            && (denoms.0 != AXL_USDC && denoms.1 == AXL_USDC ==>
                  m.GetConvertedToUsdc(Coin(denoms.0, amount), false) == price)
            && (denoms.0 == AXL_USDC && denoms.1 != AXL_USDC ==>
                  m.GetConvertedToUsdc(Coin(denoms.1, amount), true) == price)
            && Offers(pair, query, denoms.0, amount, denoms.1)
            && (match m.dex(pair.contractAddr, query)
                case None => price.Err?
                case Some(answer) =>
                  match Received(query, answer)
                  case None => price.Err?
                  case Some(received) => price == Ok(Coin(denoms.1, received)))
  {
    FindPairIsFirst(m.pairs, denoms);
    var (pair, reversed) := FindPair(m.pairs, denoms).value;
    query := if reversed then Token2ForToken1Msg(amount) else Token1ForToken2Msg(amount);
  }

  /**
   A Loop-type pair is asked in its first denom and answers in its second, for a swap and a
   reverse swap alike: as an offer of the amount when the pair is stored in the asked
   order, and otherwise as an ask for it.
   */
  lemma LoopQueryDirection(m: Market, denoms: (string, string), amount: U128)
    requires FindPair(m.pairs, denoms).Ok? && FindPair(m.pairs, denoms).value.0.queryFormat == LoopType
    ensures var (pair, reversed) := FindPair(m.pairs, denoms).value;
            var exchange := pair.contractAddr;
            var received := if reversed then Token1Of(m.dex(exchange, ReverseSimulationMsg(pair.denom1, amount)))
                            else Token2Of(m.dex(exchange, SimulationMsg(pair.denom1, amount)));
            && m.SimulateSwap(denoms, amount) == Priced(pair.denom2, received, exchange)
            && m.SimulateReverseSwap(denoms, amount) == m.SimulateSwap(denoms, amount)
  {
  }

  /**
   A price comes back in the second denom exactly when the pair is of Juno type or is
   stored in the asked order: a Loop-type pair answers in its second denom either way.
   */
  lemma ResponseAsset(m: Market, denoms: (string, string), amount: U128, target: bool)
    requires denoms.0 != denoms.1
    requires m.GetPriceFromSimulation(denoms, amount, target, target).Ok?
    ensures var (pair, reversed) := FindPair(m.pairs, denoms).value;
            m.GetPriceFromSimulation(denoms, amount, target, target).value.denom == denoms.1
            <==> pair.queryFormat == JunoType || !reversed
  {
    FindPairIsFirst(m.pairs, denoms);
  }

  // ----- the built-in tables

  /** The denom of a network that its own USDC pair exchanges. */
  function NativeDenom(network: string): Option<string> {
    if network == MAINNET_ID then Some(MAINNET_DENOM)
    else if network == TESTNET_ID then Some(TESTNET_DENOM)
    else if network == "local" then Some(LOCAL_DENOM)
    else None
  }

  /** The contract that exchanges the native denom of a network and USDC. */
  function NativeExchange(network: string): string {
    if network == MAINNET_ID then MAINNET_UJUNO_USDC
    else if network == TESTNET_ID then TESTNET_DUMMY_CONTRACT
    else LOCAL_UJUNO_USDC
  }

  /** The contract that exchanges USDC and the exchange's own denom. */
  function LoopExchange(network: string): string {
    if network == MAINNET_ID then MAINNET_USDC_ULOOP
    else if network == TESTNET_ID then TESTNET_DUMMY_CONTRACT
    else LOCAL_USDC_ULOOP
  }

  function Token1Of(answer: Option<DexAnswer>): Option<U128> {
    match answer case Some(a) => a.token1Amount case None => None
  }

  function Token2Of(answer: Option<DexAnswer>): Option<U128> {
    match answer case Some(a) => a.token2Amount case None => None
  }

  function Priced(denom: string, amount: Option<U128>, exchange: string): Result<Coin> {
    match amount case Some(n) => Ok(Coin(denom, n)) case None => Err(PriceCheckFailed(exchange))
  }

  /**
   The price of a coin on a built-in table, from the exchange's answers: the native denom
   is offered for USDC; the exchange's own denom is priced in itself, since a Loop-type pair
   labels every answer with its second denom; nothing else has a price.
   */
  function BuiltInPrice(network: string, dex: Dex, coin: Coin): Result<Coin> {
    if coin.denom == AXL_USDC then Ok(coin)
    else if NativeDenom(network) == Some(coin.denom) then
      var exchange := NativeExchange(network);
      Priced(AXL_USDC, Token2Of(dex(exchange, Token1ForToken2Msg(coin.amount))), exchange)
    else if NativeDenom(network).Some? && coin.denom == DEX_DENOM then
      var exchange := LoopExchange(network);
      Priced(DEX_DENOM, Token1Of(dex(exchange, ReverseSimulationMsg(AXL_USDC, coin.amount))), exchange)
    else Err(PairContractNotFound(coin.denom, AXL_USDC))
  }

  /** What a debt comes to in a denom: USDC for the native denom of the network at the exchange's answer. */
  function BuiltInRepayment(network: string, dex: Dex, debt: U128, denom: string): Result<Coin> {
    if denom == AXL_USDC then Ok(Coin(AXL_USDC, debt))
    else if NativeDenom(network) == Some(denom) then
      var exchange := NativeExchange(network);
      Priced(denom, Token1Of(dex(exchange, Token2ForToken1Msg(debt))), exchange)
    else if denom == MAINNET_DENOM || denom == TESTNET_DENOM || denom == LOCAL_DENOM then
      Err(PairContractNotFound(AXL_USDC, denom))
    else Err(RepayFeesFirst(debt))
  }

  /** A table with the three pairs of a network. */
  predicate IsTableOf(network: string, pairs: seq<PairContract>) {
    && NativeDenom(network).Some? && |pairs| == 3
    && pairs[0] == PairContract(LoopExchange(network), AXL_USDC, DEX_DENOM, LoopType)
    && pairs[1].denom1 == NativeDenom(network).value && pairs[1].denom2 == DEX_DENOM
    && pairs[2] == PairContract(NativeExchange(network), NativeDenom(network).value, AXL_USDC, JunoType)
  }

  /** Three networks have a table, one name has the empty one, and no other name is supported. */
  lemma TableOfNetwork(network: string)
    ensures match PairsOf(network)
            case Ok(pairs) => IsTableOf(network, pairs) || (network == "EMPTY" && pairs == [])
            case Err(e) => e == UnsupportedChain(network) && NativeDenom(network).None? && network != "EMPTY"
    ensures network == "EMPTY" ==> NativeDenom(network).None?
  {
    assert |MAINNET_ID| == 6 && |TESTNET_ID| == 5 && |"EMPTY"| == 5 && |"local"| == 5;
    assert MAINNET_ID != "local" && TESTNET_ID[0] != "EMPTY"[0] && "local"[0] != "EMPTY"[0];
  }

  lemma NetworksDiffer()
    ensures MAINNET_DENOM != AXL_USDC && TESTNET_DENOM != AXL_USDC && LOCAL_DENOM != AXL_USDC
    ensures DEX_DENOM !in {MAINNET_DENOM, TESTNET_DENOM, LOCAL_DENOM, AXL_USDC}
  {
    assert |MAINNET_DENOM| == 5 && |TESTNET_DENOM| == 6 && |LOCAL_DENOM| == 10 && |DEX_DENOM| == 5 && |AXL_USDC| > 10;
    assert MAINNET_DENOM[1] != DEX_DENOM[1];
  }

  lemma FindInFirst(pairs: seq<PairContract>, denoms: (string, string))
    requires pairs != [] && denoms.0 != denoms.1
    ensures FindPair(pairs, denoms)
            == if pairs[0].Joins(denoms.0, denoms.1) then Ok((pairs[0], pairs[0].denom1 != denoms.0))
               else FindPair(pairs[1..], denoms)
  {
  }

  lemma FindInThree(pairs: seq<PairContract>, denoms: (string, string))
    requires |pairs| == 3 && denoms.0 != denoms.1
    ensures FindPair(pairs, denoms)
            == if pairs[0].Joins(denoms.0, denoms.1) then Ok((pairs[0], pairs[0].denom1 != denoms.0))
               else if pairs[1].Joins(denoms.0, denoms.1) then Ok((pairs[1], pairs[1].denom1 != denoms.0))
               else if pairs[2].Joins(denoms.0, denoms.1) then Ok((pairs[2], pairs[2].denom1 != denoms.0))
               else Err(PairContractNotFound(denoms.0, denoms.1))
  {
    FindInFirst(pairs, denoms);
    FindInFirst(pairs[1..], denoms);
    FindInFirst(pairs[1..][1..], denoms);
  }

  /** On every built-in table a coin is converted at exactly its built-in price. */
  lemma ConversionIsBuiltInPrice(network: string, dex: Dex, coin: Coin)
    requires PairsOf(network).Ok?
    ensures Market(PairsOf(network).value, dex).GetConvertedToUsdc(coin, false) == BuiltInPrice(network, dex, coin)
  {
    var pairs := PairsOf(network).value;
    TableOfNetwork(network);
    NetworksDiffer();
    if coin.denom != AXL_USDC && pairs != [] {
      FindInThree(pairs, (coin.denom, AXL_USDC));
    }
  }

  /**
   On every built-in table a debt is repaid in the asset being spent, in exactly the amount
   that the exchange answers for it, and in USDC exactly.
   */
  lemma DebtIsRepaidInAssetSpent(network: string, dex: Dex, debt: U128, denom: string)
    requires PairsOf(network).Ok?
    ensures var repay := Market(PairsOf(network).value, dex).ConvertDebtToAssetSpent(debt, denom);
            && repay == BuiltInRepayment(network, dex, debt, denom)
            && (repay.Ok? ==> repay.value.denom == denom)
  {
    var pairs := PairsOf(network).value;
    TableOfNetwork(network);
    NetworksDiffer();
    if denom != AXL_USDC && pairs != [] {
      FindInThree(pairs, (AXL_USDC, denom));
    }
  }

  /**
   On a built-in table a debt can be paid in exactly two assets: USDC, and the native denom
   of the network while the exchange answers for it.
   */
  lemma PayableAssets(network: string, dex: Dex, debt: U128, denom: string)
    requires PairsOf(network).Ok?
    ensures Market(PairsOf(network).value, dex).ConvertDebtToAssetSpent(debt, denom).Ok?
            <==> || denom == AXL_USDC
                 || (&& NativeDenom(network) == Some(denom)
                     && Token1Of(dex(NativeExchange(network), Token2ForToken1Msg(debt))).Some?)
  {
    DebtIsRepaidInAssetSpent(network, dex, debt, denom);
  }

  predicate IsNamedDenom(denom: string) {
    denom == AXL_USDC || denom == DEX_DENOM || denom == MAINNET_DENOM || denom == TESTNET_DENOM || denom == LOCAL_DENOM
  }

  lemma NativeIsNamed(network: string)
    ensures NativeDenom(network).Some? ==> IsNamedDenom(NativeDenom(network).value)
  {
  }

  /** On a built-in table anything else than the five named denoms has no price and pays no debt. */
  lemma TokensHaveNoPrice(network: string, dex: Dex, addr: string, amount: U128, debt: U128)
    requires PairsOf(network).Ok? && !IsNamedDenom(addr)
    ensures Market(PairsOf(network).value, dex).GetConvertedToUsdc(Coin(addr, amount), false).Err?
    ensures Market(PairsOf(network).value, dex).ConvertDebtToAssetSpent(debt, addr).Err?
  {
    ConversionIsBuiltInPrice(network, dex, Coin(addr, amount));
    DebtIsRepaidInAssetSpent(network, dex, debt, addr);
    NativeIsNamed(network);
  }
}
