/**
 * The deposit handlers of api/deposit.go: POST /deposits (createDeposit),
 * GET /deposits/:id (getDeposit) and GET /deposits (listDeposits).
 */
module Deposits {
  import opened Wrappers
  import opened Db
  import opened Api
  import opened Paging

  /** The decoded JSON body of a deposit request. */
  datatype DepositRequest = DepositRequest(accountId: int64, amount: int64)

  /** ShouldBindJSON succeeds: the body decoded, account_id is at least 1 and the amount positive. */
  predicate CreateBinds(body: Option<DepositRequest>) {
    body.Some? && body.value.accountId >= 1 && body.value.amount > 0
  }

  /** The arguments createDeposit hands to DepositTx: the deposit is attributed to the caller. */
  function DepositParams(req: DepositRequest, username: string): DepositTxParams {
    DepositTxParams(req.accountId, req.amount, username)
  }

  /**
   * createDeposit, for the caller `username`; `reply` is what DepositTx
   * returns if it is called. The account's existence is checked, neither its
   * owner nor its currency is.
   */
  function Create<R>(body: Option<DepositRequest>, username: string, store: Store, reply: Reply<R>): (o: Outcome<R>)
    ensures !CreateBinds(body) ==> o == Fail([], StatusBadRequest)
    ensures CreateBinds(body) ==> |o.calls| >= 1 && o.calls[0] == GetAccount(body.value.accountId)
    ensures CreateBinds(body) && body.value.accountId in store.accountFaults ==>
              o == Fail([GetAccount(body.value.accountId)], StatusInternalServerError)
    ensures CreateBinds(body) && body.value.accountId !in store.accountFaults && body.value.accountId !in store.accounts ==>
              o == Fail([GetAccount(body.value.accountId)], StatusNotFound)
    ensures CreateBinds(body) ==>
              (DepositTx(DepositParams(body.value, username)) in o.calls <==> store.AccountReadable(body.value.accountId))
    ensures forall c | c in o.calls :: c.DepositTx? ==> CreateBinds(body) && c == DepositTx(DepositParams(body.value, username))
    ensures CreateBinds(body) && store.AccountReadable(body.value.accountId) ==>
              && o.calls == [GetAccount(body.value.accountId), DepositTx(DepositParams(body.value, username))]
              && (reply.Err? ==> o.status == StatusInternalServerError)
    ensures o.status == StatusOK <==> CreateBinds(body) && store.AccountReadable(body.value.accountId) && reply.Ok?
    ensures o.status == StatusOK ==> o.body == Some(reply.value)
    ensures o.status != StatusOK ==> o.body == None
    ensures o.status in {StatusOK, StatusBadRequest, StatusNotFound, StatusInternalServerError}
  {
    if !CreateBinds(body) then Fail([], StatusBadRequest)
    else
      var req := body.value;
      var lookup := store.LookupAccount(req.accountId);
      if !lookup.Found? then Fail([GetAccount(req.accountId)], LookupErrorStatus(lookup))
      else Conclude([GetAccount(req.accountId), DepositTx(DepositParams(req, username))], reply)
  }

  /**
   * Ownership is not checked on deposit: a caller can deposit into an account
   * someone else owns, and the deposit is recorded under the caller's name.
   */
  lemma DepositIntoForeignAccount<R>(req: DepositRequest, username: string, store: Store, reply: Reply<R>)
    requires CreateBinds(Some(req)) && store.AccountReadable(req.accountId)
    requires store.accounts[req.accountId].owner != username
    ensures Create(Some(req), username, store, reply).calls ==
      [GetAccount(req.accountId), DepositTx(DepositTxParams(req.accountId, req.amount, username))]
  {
  }

  /** The URI parameters of GET /deposits/:id. */
  datatype GetDepositRequest = GetDepositRequest(id: int64)

  /** ShouldBindUri succeeds: the id parsed as an int64 and is at least 1. */
  predicate GetBinds(uri: Option<GetDepositRequest>) {
    uri.Some? && uri.value.id >= 1
  }

  /** Deposit `id` can be read and was made by `username`. */
  predicate MadeBy(store: Store, id: int64, username: string) {
    store.DepositReadable(id) && store.deposits[id].user == username
  }

  /** getDeposit, for the caller `username`. */
  function Get(uri: Option<GetDepositRequest>, username: string, store: Store): (o: Outcome<Deposit>)
    ensures !GetBinds(uri) ==> o == Fail([], StatusBadRequest)
    ensures GetBinds(uri) ==> o.calls == [GetDeposit(uri.value.id)]
    ensures GetBinds(uri) && uri.value.id in store.depositFaults ==> o.status == StatusInternalServerError
    ensures GetBinds(uri) && uri.value.id !in store.depositFaults && uri.value.id !in store.deposits ==>
              o.status == StatusNotFound
    ensures GetBinds(uri) && uri.value.id !in store.depositFaults && uri.value.id in store.deposits ==>
              (o.status == StatusOK <==> store.deposits[uri.value.id].user == username)
              && (o.status != StatusOK ==> o.status == StatusUnauthorized)
    ensures o.status == StatusOK <==> GetBinds(uri) && MadeBy(store, uri.value.id, username)
    ensures o.status == StatusOK ==>
              GetBinds(uri) && uri.value.id in store.deposits && o.body == Some(store.deposits[uri.value.id])
    ensures o.status != StatusOK ==> o.body == None
  {
    if !GetBinds(uri) then Fail([], StatusBadRequest)
    else
      var calls := [GetDeposit(uri.value.id)];
      match store.LookupDeposit(uri.value.id)
      case NotFound => Fail(calls, StatusNotFound)
      case Failed => Fail(calls, StatusInternalServerError)
      case Found(deposit) =>
        if deposit.user != username then Fail(calls, StatusUnauthorized)
        else Outcome(calls, StatusOK, Some(deposit))
  }

  /** The query parameters of GET /deposits. */
  datatype ListDepositsRequest = ListDepositsRequest(accountId: int64, pageId: int32, pageSize: int32)

  /** ShouldBindQuery succeeds: the parameters parsed, account_id is at least 1 and the page is valid. */
  predicate ListBinds(query: Option<ListDepositsRequest>) {
    query.Some? && query.value.accountId >= 1 && ValidPage(query.value.pageId, query.value.pageSize)
  }

  /**
   * The account listDeposits compares with the caller: it ignores the error
   * of GetAccount, so on any lookup error it uses the zero value.
   */
  function FetchedAccount(store: Store, id: int64): (a: Account)
    ensures store.AccountReadable(id) ==> a == store.accounts[id]
    ensures !store.AccountReadable(id) ==> a == ZeroAccount
  {
    match store.LookupAccount(id)
    case Found(account) => account
    case _ => ZeroAccount
  }

  /** The arguments listDeposits hands to ListDeposits. */
  function PageParams(req: ListDepositsRequest): ListDepositsParams {
    ListDepositsParams(req.accountId, req.pageSize, PageOffset(req.pageId, req.pageSize))
  }

  /** listDeposits, for the caller `username`; `reply` is what ListDeposits returns if it is called. */
  function List(query: Option<ListDepositsRequest>, username: string, store: Store, reply: Reply<seq<Deposit>>)
    : (o: Outcome<seq<Deposit>>)
    ensures !ListBinds(query) ==> o == Fail([], StatusBadRequest)
    ensures ListBinds(query) && FetchedAccount(store, query.value.accountId).owner != username ==>
              o == Fail([GetAccount(query.value.accountId)], StatusUnauthorized)
    ensures ListBinds(query) && FetchedAccount(store, query.value.accountId).owner == username ==>
              o.calls == [GetAccount(query.value.accountId), ListDeposits(PageParams(query.value))]
    ensures ListBinds(query) && FetchedAccount(store, query.value.accountId).owner == username && reply.Err? ==>
              o.status == StatusInternalServerError
    ensures o.status == StatusOK <==>
              ListBinds(query) && FetchedAccount(store, query.value.accountId).owner == username && reply.Ok?
    ensures o.status == StatusOK ==> o.body == Some(reply.value)
    ensures o.status != StatusOK ==> o.body == None
    ensures o.status in {StatusOK, StatusBadRequest, StatusUnauthorized, StatusInternalServerError}
  {
    if !ListBinds(query) then Fail([], StatusBadRequest)
    else
      var req := query.value;
      if FetchedAccount(store, req.accountId).owner != username then Fail([GetAccount(req.accountId)], StatusUnauthorized)
      else Conclude([GetAccount(req.accountId), ListDeposits(PageParams(req))], reply)
  }

  /**
   * Because the lookup error is dropped, a missing account or a failing
   * store is reported as 401 to any caller with a non-empty name, never as
   * 404 or 500.
   */
  lemma ListHidesLookupErrors(req: ListDepositsRequest, username: string, store: Store, reply: Reply<seq<Deposit>>)
    requires ListBinds(Some(req)) && !store.AccountReadable(req.accountId) && username != ""
    ensures List(Some(req), username, store, reply) == Fail([GetAccount(req.accountId)], StatusUnauthorized)
  {
  }

  /** For a caller with an empty name, the zero value's empty owner matches and ListDeposits is reached for a missing account. */
  lemma ListEmptyUsernameMatchesZeroAccount(req: ListDepositsRequest, store: Store, reply: Reply<seq<Deposit>>)
    requires ListBinds(Some(req)) && !store.AccountReadable(req.accountId)
    ensures ListDeposits(PageParams(req)) in List(Some(req), "", store, reply).calls
  {
  }

  /**
   * The page handed to ListDeposits: limit is the page size, and while the
   * page does not pass LastPage the offset is (page_id - 1) * page_size, a
   * non-negative multiple of the page size that skips exactly the rows of the
   * earlier pages.
   */
  lemma ListPage(req: ListDepositsRequest, username: string, store: Store, reply: Reply<seq<Deposit>>)
    requires ListBinds(Some(req)) && req.pageId as int <= LastPage(req.pageSize)
    ensures forall c | c in List(Some(req), username, store, reply).calls && c.ListDeposits? ::
      && c.depositPage.accountId == req.accountId
      && c.depositPage.limit == req.pageSize
      && c.depositPage.offset as int == (req.pageId as int - 1) * req.pageSize as int
      && c.depositPage.offset >= 0
      && c.depositPage.offset as int % req.pageSize as int == 0
      && c.depositPage.offset as int == RowsBefore(req.pageId as int, req.pageSize as int)
  {
    PageOffsetExact(req.pageId, req.pageSize);
  }

  /**
   * listDeposits with the offset computed by CheckedPageOffset: a page whose
   * offset does not fit in int32 is refused with 400 before any store call.
   */
  function ListChecked(query: Option<ListDepositsRequest>, username: string, store: Store, reply: Reply<seq<Deposit>>)
    : (o: Outcome<seq<Deposit>>)
    ensures ListBinds(query) && (query.value.pageId as int - 1) * query.value.pageSize as int > MaxInt32 ==>
              o == Fail([], StatusBadRequest)
    ensures forall c | c in o.calls && c.ListDeposits? ::
              && ListBinds(query)
              && c.depositPage.limit == query.value.pageSize
              && c.depositPage.offset >= 0
              && c.depositPage.offset as int == (query.value.pageId as int - 1) * query.value.pageSize as int
    ensures !ListBinds(query) ==> o == Fail([], StatusBadRequest)
    ensures !(ListBinds(query) && CheckedPageOffset(query.value.pageId, query.value.pageSize).None?) ==>
              o == List(query, username, store, reply)
  {
    if ListBinds(query) && CheckedPageOffset(query.value.pageId, query.value.pageSize).None? then
      Fail([], StatusBadRequest)
    else
      List(query, username, store, reply)
  }
}
