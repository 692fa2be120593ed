/** Classification of the exchange's answer to one market order
    (`send_market_order`, `_extract_order_id_from_response`,
    `_is_order_rejected`). The exchange call itself is an input: either the
    value it returned or the fact that it raised. */
module Dispatch {
  import opened Common
  import opened Json

  /** What `market_open` did. */
  datatype MarketOpen = Returned(response: Value) | Raised(reason: string)

  /** How the monitor identifies the order it has just sent. */
  datatype OrderOutcome =
      /** A transaction hash, order id or extracted oid. */
    | Identifier(id: Value)
      /** The exchange refused the order; the caller receives `None`. */
    | Rejected
      /** A synthetic token derived from the wallet address. */
    | Fallback(token: string)

  /** `"addr_" + wallet_address[:10]`. */
  function FallbackToken(wallet: string): (t: string)
    ensures |t| == 5 + Min(10, |wallet|)
    ensures t[..5] == "addr_"
    ensures t[5..] == wallet[..|t| - 5]
  {
    "addr_" + wallet[..Min(10, |wallet|)]
  }

  /** The attribute `name` of an object response, when it has one. */
  function Attr(v: Value, name: string): Option<Value> {
    if v.Obj? then Get(v.attrs, name) else None
  }

  /** The part of the response that holds `data`: the `response` attribute of
      an object, else the `response` key of a dict, else the response itself. */
  function ResponseData(r: Value): Value {
    if r.Obj? && Has(r.attrs, "response") then Get(r.attrs, "response").value
    else if r.Dict? && Has(r.entries, "response") then Get(r.entries, "response").value
    else r
  }

  /** The entries of `data["statuses"][0]` when `rd` is a dict whose `data`
      is a dict whose `statuses` is a non-empty list whose first element is a dict. */
  function FirstStatus(rd: Value): Option<seq<(string, Value)>> {
    if !rd.Dict? then None
    else match Get(rd.entries, "data")
      case Some(Dict(data)) =>
        (match Get(data, "statuses")
         case Some(List(statuses)) =>
           if |statuses| > 0 && statuses[0].Dict? then Some(statuses[0].entries) else None
         case _ => None)
      case _ => None
  }

  /** The oid read from one status entry: an `error` key wins; a dict under
      `filled` is consulted next and, when it is, the top-level `oid` is not. */
  function StatusOid(status: seq<(string, Value)>): Option<string> {
    if Has(status, "error") then None
    else match Get(status, "filled")
      case Some(Dict(filled)) =>
        (match Get(filled, "oid")
         case Some(oid) => Some(PyStr(oid))
         case None => None)
      case _ =>
        (match Get(status, "oid")
         case Some(oid) => Some(PyStr(oid))
         case None => None)
  }

  /** `_extract_order_id_from_response`. None of the operations it performs
      can raise on these values (a non-string `error` makes `.lower()` raise,
      which is caught and also yields `None`). */
  function ExtractOrderId(r: Value): (oid: Option<string>)
    ensures oid.Some? ==> Truthy(r) && FirstStatus(ResponseData(r)).Some?
    ensures oid.Some? ==> !Has(FirstStatus(ResponseData(r)).value, "error")
  {
    if !Truthy(r) then None
    else match FirstStatus(ResponseData(r))
      case None => None
      case Some(status) => StatusOid(status)
  }

  /** `_is_order_rejected`: only a dict response is inspected, through its
      `response` key. A `data` that is not a dict makes the membership test
      or the subscript fail, and the caught exception yields false. */
  function IsOrderRejected(r: Value): (rejected: bool)
    ensures rejected ==> ExtractOrderId(r) == None
  {
    && r.Dict?
    && Has(r.entries, "response")
    && match FirstStatus(Get(r.entries, "response").value)
       case None => false
       case Some(status) => Has(status, "error")
  }

  /** The decision chain of `send_market_order` after the exchange call. */
  function Classify(call: MarketOpen, wallet: string): (o: OrderOutcome)
    ensures o.Rejected? <==> call.Returned? && IsOrderRejected(call.response)
    ensures call.Raised? ==> o == Fallback(FallbackToken(wallet))
    ensures o.Fallback? ==> o.token == FallbackToken(wallet)
    ensures o.Identifier? && Attr(call.response, "hash").None? && Attr(call.response, "id").None? ==>
              o.id.Str? && o.id.s != ""
  {
    match call
    case Raised(_) => Fallback(FallbackToken(wallet))
    case Returned(r) =>
      if Truthy(r) && Attr(r, "hash").Some? then Identifier(Attr(r, "hash").value)
      else if Truthy(r) && Attr(r, "id").Some? then Identifier(Attr(r, "id").value)
      else
        var oid := ExtractOrderId(r);
        if oid.Some? && oid.value != "" then Identifier(Str(oid.value))
        else if IsOrderRejected(r) then Rejected
        else Fallback(FallbackToken(wallet))
  }

  /** The value `send_market_order` returns as its first component. */
  function TxHash(o: OrderOutcome): Value {
    match o
    case Identifier(id) => id
    case Rejected => Null
    case Fallback(t) => Str(t)
  }

  /** `send_market_order`: the identifier and the send time captured before the call. */
  function SendMarketOrder(call: MarketOpen, wallet: string, sendTime: int): (r: (Value, int))
    ensures r.1 == sendTime
    ensures Classify(call, wallet).Rejected? ==> r.0 == Null
    ensures call.Raised? ==> r.0 == Str(FallbackToken(wallet))
  {
    (TxHash(Classify(call, wallet)), sendTime)
  }

  // ---------------------------------------------------------------------------
  // Properties of the classification

  /** A response object carrying `hash` is identified by it, whatever else it holds. */
  lemma HashFirst(attrs: seq<(string, Value)>, wallet: string)
    requires Has(attrs, "hash")
    ensures Classify(Returned(Obj(attrs)), wallet) == Identifier(Get(attrs, "hash").value)
  {
  }

  /** Without `hash`, an `id` attribute identifies the order. */
  lemma IdSecond(attrs: seq<(string, Value)>, wallet: string)
    requires !Has(attrs, "hash") && Has(attrs, "id")
    ensures Classify(Returned(Obj(attrs)), wallet) == Identifier(Get(attrs, "id").value)
  {
  }

  /** Only without both attributes is the nested oid consulted. */
  lemma NestedOidThird(r: Value, wallet: string)
    requires Attr(r, "hash").None? && Attr(r, "id").None?
    ensures ExtractOrderId(r).Some? && ExtractOrderId(r).value != "" ==>
              Classify(Returned(r), wallet) == Identifier(Str(ExtractOrderId(r).value))
    ensures ExtractOrderId(r).None? || ExtractOrderId(r).value == "" ==>
              Classify(Returned(r), wallet) ==
                if IsOrderRejected(r) then Rejected else Fallback(FallbackToken(wallet))
  {
  }

  /** Extraction yields nothing for a falsy response or when the nested
      `data.statuses[0]` dict cannot be reached. */
  lemma ExtractNone(r: Value)
    requires !Truthy(r) || FirstStatus(ResponseData(r)).None?
    ensures ExtractOrderId(r) == None
  {
  }

  /** A status with an `error` key never yields an oid, even with an `oid` key beside it. */
  lemma ErrorBlocksOid(r: Value, status: seq<(string, Value)>)
    requires Truthy(r) && FirstStatus(ResponseData(r)) == Some(status)
    requires Has(status, "error")
    ensures ExtractOrderId(r) == None
  {
  }

  /** A dict under `filled` decides alone: its `oid` or nothing, never the top-level `oid`. */
  lemma FilledShadowsOid(r: Value, status: seq<(string, Value)>, filled: seq<(string, Value)>)
    requires Truthy(r) && FirstStatus(ResponseData(r)) == Some(status)
    requires !Has(status, "error") && Get(status, "filled") == Some(Dict(filled))
    ensures ExtractOrderId(r) ==
              if Has(filled, "oid") then Some(PyStr(Get(filled, "oid").value)) else None
  {
  }

  /** The top-level `oid` is read only when `filled` is absent or not a dict. */
  lemma TopLevelOid(r: Value, status: seq<(string, Value)>)
    requires Truthy(r) && FirstStatus(ResponseData(r)) == Some(status)
    requires !Has(status, "error")
    requires Get(status, "filled").None? || !Get(status, "filled").value.Dict?
    ensures ExtractOrderId(r) ==
              if Has(status, "oid") then Some(PyStr(Get(status, "oid").value)) else None
  {
  }

  /** A status whose `oid` is an integer identifies the order by that
      integer's decimal rendering, when neither `hash` nor `id` is present,
      there is no `error` and no dict under `filled`. */
  lemma IntegerOidIdentifies(r: Value, wallet: string, status: seq<(string, Value)>, n: int)
    requires Attr(r, "hash").None? && Attr(r, "id").None?
    requires FirstStatus(ResponseData(r)) == Some(status)
    requires !Has(status, "error")
    requires Get(status, "filled").None? || !Get(status, "filled").value.Dict?
    requires Get(status, "oid") == Some(Int(n))
    ensures Classify(Returned(r), wallet) == Identifier(Str(Strings.IntToDecimal(n)))
  {
    assert Truthy(r);
  }

  /** Any exception from the exchange call degrades to the fallback token. */
  lemma RaisedFallsBack(reason: string, wallet: string)
    ensures Classify(Raised(reason), wallet) == Fallback(FallbackToken(wallet))
  {
  }

  /** A response object whose `response` attribute holds an error status is
      not recognised as a rejection (only dicts are), so it gets the fallback
      token. */
  lemma ObjectErrorFallsBack(wallet: string)
    ensures
      var status := Dict([("error", Str("insufficient minimum value"))]);
      var data := Dict([("statuses", List([status]))]);
      var r := Obj([("response", Dict([("data", data)]))]);
      Classify(Returned(r), wallet) == Fallback(FallbackToken(wallet))
  {
  }

  /** An oid that renders as the empty string is not an identifier: the
      response falls through to the rejection check and then to the fallback. */
  lemma EmptyOidFallsBack(wallet: string)
    ensures
      var status := Dict([("oid", Str(""))]);
      var r := Dict([("response", Dict([("data", Dict([("statuses", List([status]))]))]))]);
      Classify(Returned(r), wallet) == Fallback(FallbackToken(wallet))
  {
  }
}
