/**
 * The account handlers of api/account.go: POST /accounts (createAccount),
 * GET /accounts/:id (getAccount) and GET /accounts (listAccounts).
 */
module Accounts {
  import opened Wrappers
  import opened Db
  import opened Api
  import opened Paging

  /** The decoded JSON body of an account-creation request: only the currency. */
  datatype CreateAccountRequest = CreateAccountRequest(currency: string)

  /** ShouldBindJSON succeeds: the body decoded and the currency is non-empty and accepted by the validator. */
  predicate CreateBinds(body: Option<CreateAccountRequest>, currencies: set<string>) {
    body.Some? && body.value.currency != "" && body.value.currency in currencies
  }

  /** The arguments createAccount hands to CreateAccount: the caller owns the new account, which starts empty. */
  function NewAccountParams(req: CreateAccountRequest, username: string): CreateAccountParams {
    CreateAccountParams(username, 0, req.currency)
  }

  /** The status createAccount answers a CreateAccount error with. */
  function CreateErrorStatus(kind: ErrKind): (s: Status)
    ensures s == StatusForbidden <==> kind in {ForeignKeyViolation, UniqueViolation}
    ensures s != StatusForbidden ==> s == StatusInternalServerError
  {
    match kind
    case ForeignKeyViolation => StatusForbidden
    case UniqueViolation => StatusForbidden
    case OtherError => StatusInternalServerError
  }

  /** createAccount, for the caller `username`; `reply` is what CreateAccount returns if it is called. */
  function Create(body: Option<CreateAccountRequest>, username: string, currencies: set<string>,
                  reply: Reply<Account>): (o: Outcome<Account>)
    ensures !CreateBinds(body, currencies) ==> o == Fail([], StatusBadRequest)
    ensures CreateBinds(body, currencies) ==>
              o.calls == [CreateAccount(CreateAccountParams(username, 0, body.value.currency))]
    ensures CreateBinds(body, currencies) && reply.Err? ==>
              o.status == (if reply.kind == OtherError then StatusInternalServerError else StatusForbidden)
    ensures o.status == StatusOK <==> CreateBinds(body, currencies) && reply.Ok?
    ensures o.status == StatusOK ==> o.body == Some(reply.value)
    ensures o.status != StatusOK ==> o.body == None
    ensures o.status in {StatusOK, StatusBadRequest, StatusForbidden, StatusInternalServerError}
  {
    if !CreateBinds(body, currencies) then Fail([], StatusBadRequest)
    else
      var calls := [CreateAccount(NewAccountParams(body.value, username))];
      match reply
      case Err(kind) => Fail(calls, CreateErrorStatus(kind))
      case Ok(account) => Outcome(calls, StatusOK, Some(account))
  }

  /** The URI parameters of GET /accounts/:id. */
  datatype GetAccountRequest = GetAccountRequest(id: int64)

  /** ShouldBindUri succeeds: the id parsed as an int64 and is at least 1. */
  predicate GetBinds(uri: Option<GetAccountRequest>) {
    uri.Some? && uri.value.id >= 1
  }

  /** Account `id` can be read and belongs to `username`. */
  predicate OwnedBy(store: Store, id: int64, username: string) {
    store.AccountReadable(id) && store.accounts[id].owner == username
  }

  /** getAccount, for the caller `username`. */
  function Get(uri: Option<GetAccountRequest>, username: string, store: Store): (o: Outcome<Account>)
    ensures !GetBinds(uri) ==> o == Fail([], StatusBadRequest)
    ensures GetBinds(uri) ==> o.calls == [GetAccount(uri.value.id)]
    ensures GetBinds(uri) && uri.value.id in store.accountFaults ==> o.status == StatusInternalServerError
    ensures GetBinds(uri) && uri.value.id !in store.accountFaults && uri.value.id !in store.accounts ==>
              o.status == StatusNotFound
    ensures GetBinds(uri) && uri.value.id !in store.accountFaults && uri.value.id in store.accounts ==>
              (o.status == StatusOK <==> store.accounts[uri.value.id].owner == username)
              && (o.status != StatusOK ==> o.status == StatusUnauthorized)
    ensures o.status == StatusOK <==> GetBinds(uri) && OwnedBy(store, uri.value.id, username)
    ensures o.status == StatusOK ==>
              GetBinds(uri) && uri.value.id in store.accounts && o.body == Some(store.accounts[uri.value.id])
    ensures o.status != StatusOK ==> o.body == None
  {
    if !GetBinds(uri) then Fail([], StatusBadRequest)
    else
      var calls := [GetAccount(uri.value.id)];
      var lookup := store.LookupAccount(uri.value.id);
      if !lookup.Found? then Fail(calls, LookupErrorStatus(lookup))
      else if lookup.value.owner != username then Fail(calls, StatusUnauthorized)
      else Outcome(calls, StatusOK, Some(lookup.value))
  }

  /** The query parameters of GET /accounts. */
  datatype ListAccountsRequest = ListAccountsRequest(pageId: int32, pageSize: int32)

  /** ShouldBindQuery succeeds: the parameters parsed and the page is valid. */
  predicate ListBinds(query: Option<ListAccountsRequest>) {
    query.Some? && ValidPage(query.value.pageId, query.value.pageSize)
  }

  /** The arguments listAccounts hands to ListAccounts: the caller's accounts, one page of them. */
  function PageParams(req: ListAccountsRequest, username: string): ListAccountsParams {
    ListAccountsParams(username, req.pageSize, PageOffset(req.pageId, req.pageSize))
  }

  /** listAccounts, for the caller `username`; `reply` is what ListAccounts returns if it is called. */
  function List(query: Option<ListAccountsRequest>, username: string, reply: Reply<seq<Account>>)
    : (o: Outcome<seq<Account>>)
    ensures !ListBinds(query) ==> o == Fail([], StatusBadRequest)
    ensures ListBinds(query) ==> o.calls == [ListAccounts(PageParams(query.value, username))]
    ensures forall c | c in o.calls :: c.ListAccounts? && c.accountPage.owner == username
    ensures ListBinds(query) && reply.Err? ==> o.status == StatusInternalServerError
    ensures o.status == StatusOK <==> ListBinds(query) && reply.Ok?
    ensures o.status == StatusOK ==> o.body == Some(reply.value)
    ensures o.status != StatusOK ==> o.body == None
    ensures o.status in {StatusOK, StatusBadRequest, StatusInternalServerError}
  {
    if !ListBinds(query) then Fail([], StatusBadRequest)
    else Conclude([ListAccounts(PageParams(query.value, username))], reply)
  }

  /**
   * The page handed to ListAccounts: the caller's accounts, limit the page
   * size, and while the page does not pass LastPage the offset is
   * (page_id - 1) * page_size, a non-negative multiple of the page size that
   * skips exactly the rows of the earlier pages.
   */
  lemma ListPage(req: ListAccountsRequest, username: string, reply: Reply<seq<Account>>)
    requires ListBinds(Some(req)) && req.pageId as int <= LastPage(req.pageSize)
    ensures var calls := List(Some(req), username, reply).calls;
      && |calls| == 1 && calls[0].ListAccounts?
      && calls[0].accountPage.owner == username
      && calls[0].accountPage.limit == req.pageSize
      && calls[0].accountPage.offset as int == (req.pageId as int - 1) * req.pageSize as int
      && calls[0].accountPage.offset >= 0
      && calls[0].accountPage.offset as int % req.pageSize as int == 0
      && calls[0].accountPage.offset as int == RowsBefore(req.pageId as int, req.pageSize as int)
  {
    PageOffsetExact(req.pageId, req.pageSize);
  }

  /**
   * listAccounts with the offset computed by CheckedPageOffset: a page whose
   * offset does not fit in int32 is refused with 400 before any store call.
   */
  function ListChecked(query: Option<ListAccountsRequest>, username: string, reply: Reply<seq<Account>>)
    : (o: Outcome<seq<Account>>)
    ensures ListBinds(query) && (query.value.pageId as int - 1) * query.value.pageSize as int > MaxInt32 ==>
              o == Fail([], StatusBadRequest)
    ensures forall c | c in o.calls ::
              && c.ListAccounts?
              && ListBinds(query)
              && c.accountPage.owner == username
              && c.accountPage.limit == query.value.pageSize
              && c.accountPage.offset >= 0
              && c.accountPage.offset as int == (query.value.pageId as int - 1) * query.value.pageSize as int
    ensures !ListBinds(query) ==> o == Fail([], StatusBadRequest)
    ensures !(ListBinds(query) && CheckedPageOffset(query.value.pageId, query.value.pageSize).None?) ==>
              o == List(query, username, reply)
  {
    if ListBinds(query) && CheckedPageOffset(query.value.pageId, query.value.pageSize).None? then
      Fail([], StatusBadRequest)
    else
      List(query, username, reply)
  }
}
