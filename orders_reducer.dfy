/**
 * The orders reducer: a three-action state machine over a remote value
 * holding the list of orders.
 */
module OrdersReducer {
  import opened Wrappers
  import opened Orders
  import opened RemoteValues

  /** A JavaScript `Error`, of which only the message is read. */
  datatype Error = Error(message: string)

  datatype Payload = Payload(orders: Option<seq<OrderPatch>>, error: Option<Error>)

  /** The action types; `Other` is any action of another type (such as the store's own init action). */
  datatype ActionType =
    | RequestOrdersRequest | RequestOrdersSuccess | RequestOrdersFailure | Other(name: string)

  datatype Action = Action(kind: ActionType, payload: Option<Payload>)

  type State = RemoteValue<seq<Order>>

  const FallbackError: string := "Something went wrong! Please try again later."

  /** `extractError`: the payload error's message when it is non-empty, else the fallback text. */
  function ExtractError(action: Action): (msg: string)
    ensures msg != ""
    ensures (action.payload.Some? && action.payload.value.error.Some?
             && action.payload.value.error.value.message != "")
            ==> msg == action.payload.value.error.value.message
    ensures (action.payload.None? || action.payload.value.error.None?
             || action.payload.value.error.value.message == "")
            ==> msg == FallbackError
  {
    match action.payload
    case Some(Payload(_, Some(e))) => if e.message != "" then e.message else FallbackError
    case _ => FallbackError
  }

  /** `List((payload && payload.orders) || []).map(Order.fromService)`. */
  function PayloadOrders(action: Action): (os: seq<Order>)
    ensures action.payload.None? || action.payload.value.orders.None? ==> os == []
    ensures action.payload.Some? && action.payload.value.orders.Some? ==>
              var ps := action.payload.value.orders.value;
              |os| == |ps| && forall i :: 0 <= i < |ps| ==> os[i] == FromService(Some(ps[i]))
  {
    match action.payload
    case Some(Payload(Some(ps), _)) => seq(|ps|, i requires 0 <= i < |ps| => FromService(Some(ps[i])))
    case _ => []
  }

  /** The reducer; an absent state (`undefined`) starts as `new RemoteValue()`. */
  function Reduce(state: Option<State>, action: Action): (next: State)
    ensures action.kind == RequestOrdersRequest ==>
              var s := Or(state, Default());
              next == s.(isFetching := true, didInvalidate := false, error := "")
    ensures action.kind == RequestOrdersSuccess ==>
              var s := Or(state, Default());
              next == s.(isFetching := false, didEverLoad := true,
                         value := Some(PayloadOrders(action)), error := "")
    ensures action.kind == RequestOrdersFailure ==>
              var s := Or(state, Default());
              next == s.(isFetching := false, error := ExtractError(action))
    ensures action.kind.Other? ==> next == Or(state, Default())
  {
    var s := match state case Some(st) => st case None => Default();
    match action.kind
    case RequestOrdersRequest => s.(isFetching := true, didInvalidate := false, error := "")
    case RequestOrdersSuccess =>
      s.(isFetching := false, didEverLoad := true, value := Some(PayloadOrders(action)), error := "")
    case RequestOrdersFailure => s.(isFetching := false, error := ExtractError(action))
    case Other(_) => s
  }

  /** The store's initial state: the reducer on no state and a foreign action. */
  lemma InitialStateIsDefault(name: string)
    ensures Reduce(None, Action(Other(name), None)) == Default()
  {
  }

  /** After a request the orders are being fetched and are not loaded, whatever came before. */
  lemma RequestThenNotLoaded(state: Option<State>, payload: Option<Payload>)
    ensures var next := Reduce(state, Action(RequestOrdersRequest, payload));
            next.isFetching && !Loaded(next) && !LoadedAsIntended(next)
  {
  }

  /** A failure always leaves a non-empty error, so the orders never read as loaded after it. */
  lemma FailureThenNotLoaded(state: Option<State>, payload: Option<Payload>)
    ensures var next := Reduce(state, Action(RequestOrdersFailure, payload));
            !next.isFetching && next.error != "" && !Loaded(next) && !LoadedAsIntended(next)
  {
  }

  /**
   * The request/success sequence from a fresh store: the intended predicate
   * holds, the one as written does not.
   */
  lemma RequestSuccessLoads(payload: Option<Payload>, p2: Option<Payload>)
    ensures var s1 := Reduce(None, Action(RequestOrdersRequest, p2));
            var s2 := Reduce(Some(s1), Action(RequestOrdersSuccess, payload));
            LoadedAsIntended(s2) && !Loaded(s2) && s2.value == Some(PayloadOrders(Action(RequestOrdersSuccess, payload)))
  {
  }
}
