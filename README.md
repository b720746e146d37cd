# simplebank HTTP handlers — decision model

This project models the request handlers of the simplebank service (package
`api`), which sit in front of the ledger store. Every handler first binds its
request and answers 400 if binding fails. After that the handlers differ:

- `createTransfer` runs the full chain. It looks up the origin account and
  checks its currency, checks that the caller owns it, then looks up the
  destination account and checks its currency. Only then does it call
  `TransferTx`.
- `createDeposit` looks up the account to check that it exists. It checks
  neither currency nor owner, then calls `DepositTx` attributed to the caller.
- `getAccount` and `getDeposit` look up one row. They answer it when it
  belongs to the caller and 401 otherwise, and call no further store
  operation.
- `listDeposits` looks up the account and checks its owner, but not its
  currency, discarding the lookup error. It then calls `ListDeposits`.
- `createAccount` and `listAccounts` look nothing up. They call
  `CreateAccount` or `ListAccounts` directly, with the caller as owner.

Every handler is a pure function. Its inputs are these, each where it applies:

- the decoded request (`None` when the body, URI or query does not decode);
- the caller's username;
- the set of currencies the `currency` validator accepts (`createTransfer`,
  `createAccount`);
- a `Db.Store` snapshot that answers the point lookups (every handler except
  `createAccount` and `listAccounts`);
- a `Db.Reply` holding the result of the final store operation (every handler
  except `getAccount` and `getDeposit`).

It returns an `Api.Outcome`, which holds the exact sequence of store calls made
(lookups included) and the response: its status, and its body on success.
Claims such as "DepositTx is called exactly once with these arguments" or
"GetAccount is never called" are statements about that sequence.

Modules:

- `Db`: row types, store parameters, the `Store` snapshot, store calls and replies.
- `Api`: statuses, `Outcome`, and the shared mappings of lookup errors and final replies.
- `Paging`: the int32 page-offset arithmetic used by both list handlers.
- `Transfers`, `Deposits`, `Accounts`: one module per handler file.

`createTransfer` never compares the two account ids. A transfer from an owned,
usable account to itself therefore reaches `TransferTx`;
`Transfers.SelfTransferReachesTransferTx` states this.

## Model

| member | source | states |
|---|---|---|
| `Api.LookupErrorStatus` | api/account.go:67-77 | a point lookup that fails with "no rows" is answered 404, and every other lookup error 500 |
| `Api.Conclude` | api/transfer.go:81-88 | after the final store operation, an error gives 500 with no body; success gives 200 carrying exactly the store's result |
| `Paging.Wrap32` | api/account.go:111 | Go int32 arithmetic: the result is congruent to the true value modulo 2^32, and equal to it when it fits in int32 |
| `Paging.PageOffset` | api/account.go:111 | the offset the handlers pass, as written in int32: congruent to (page_id − 1) × page_size modulo 2^32, and equal to it when the product fits in int32 |
| `Paging.LastPage` | api/account.go:92-93 | for a valid page size, the last page whose offset (page_id − 1) × page_size still fits in int32 |
| `Paging.RowsBeforeIsProduct` | api/account.go:111 | the rows on the pages before page p, each of page_size rows, number exactly (p − 1) × page_size, which is the offset the handlers intend |
| `Paging.PagesDisjoint` | api/account.go:111 | pages do not overlap: every row of a page comes before the first row of any later page, and the next page starts right after it |
| `Paging.PageOffsetExact` | api/account.go:107-112 | on a bound page, the int32 offset equals (page_id − 1) × page_size exactly when page_id ≤ LastPage; below that bound the offset is non-negative, a multiple of the page size, and equal to the rows on the earlier pages |
| `Paging.PageOffsetOverflows` | api/deposit.go:120-125 | as written, page 2147483647 of size 10 gets offset −20, and the last int32 page of every valid size gets an offset that is not (page_id − 1) × page_size |
| `Paging.CheckedPageOffset` | api/deposit.go:120-125 | corrected offset: present exactly when (page_id − 1) × page_size fits in int32, and then equal to that product, non-negative and a multiple of the page size |
| `Transfers.Binds` | api/transfer.go:15-20 | the request binds when it decodes, both ids are at least 1, the amount is positive and the currency is non-empty and accepted by the validator |
| `Transfers.ValidAccountCurrency` | api/transfer.go:22-44 | the account is usable exactly when it can be read and has the request's currency, and it is then the stored row; otherwise the status is 500 for a lookup error, 404 for no rows, or 400 for a currency mismatch |
| `Transfers.Create` | api/transfer.go:46-89 | a request that fails binding is answered 400 with no store call; TransferTx is called exactly when both accounts are usable in the currency and the origin belongs to the caller, and always with the request's from id, to id and amount; 200 happens exactly when TransferTx succeeds, with its result as the body |
| `Transfers.CheckOrder` | api/transfer.go:55-71 | a failing origin account decides the status after one lookup; an ownership failure gives 401 before the destination is looked up; a failing destination decides the status after two lookups; a permitted transfer makes exactly two lookups and then calls TransferTx |
| `Transfers.TransferReply` | api/transfer.go:81-88 | for a permitted transfer, a TransferTx error gives 500, and success gives 200 with the transaction result |
| `Transfers.SelfTransferReachesTransferTx` | api/transfer.go:46-81 | a transfer from an owned, usable account to itself reaches TransferTx with equal ids |
| `Deposits.CreateBinds` | api/deposit.go:14-17 | the deposit request binds when it decodes, account_id is at least 1 and the amount is positive |
| `Deposits.Create` | api/deposit.go:19-56 | a binding failure gives 400 with no store call; a missing account gives 404 and a lookup error 500, both without DepositTx; otherwise DepositTx is called once with the request's account id and amount and the caller as user; 200 happens exactly when it succeeds; 401 never occurs |
| `Deposits.DepositIntoForeignAccount` | api/deposit.go:27-45 | the account's owner is not checked: a deposit into another user's account reaches DepositTx, attributed to the caller |
| `Deposits.GetBinds` | api/deposit.go:58-60 | the URI binds when the id parses and is at least 1 |
| `Deposits.Get` | api/deposit.go:62-92 | an id below 1 gives 400 with no lookup; otherwise exactly one GetDeposit call; no rows gives 404 and other errors 500; a found deposit gives 200, with the deposit as body, exactly when its user is the caller, and 401 otherwise |
| `Deposits.ListBinds` | api/deposit.go:94-98 | the query binds when it parses, account_id is at least 1, page_id is at least 1 and page_size is between 5 and 10 |
| `Deposits.FetchedAccount` | api/deposit.go:112 | the account compared with the caller is the stored row when the lookup succeeds, and otherwise the zero value, whose owner is empty |
| `Deposits.List` | api/deposit.go:100-134 | a binding failure gives 400 with no store call; if the fetched owner differs from the caller, the answer is 401 after the lookup alone; otherwise ListDeposits is called with the account id, limit = page size and the int32 offset; 200 happens exactly when ListDeposits succeeds |
| `Deposits.ListHidesLookupErrors` | api/deposit.go:112-117 | for a caller with a non-empty name, a missing account or a failing lookup is answered 401 after one lookup, never 404 or 500 |
| `Deposits.ListEmptyUsernameMatchesZeroAccount` | api/deposit.go:112-117 | for a caller with an empty name, an unreadable account still lets the request reach ListDeposits |
| `Deposits.ListPage` | api/deposit.go:120-125 | while page_id ≤ LastPage, ListDeposits receives the requested account, limit = page size and offset = (page_id − 1) × page_size, which is non-negative, a multiple of the page size, and equal to the rows on the earlier pages |
| `Deposits.ListChecked` | api/deposit.go:120-125 | corrected handler: a request that fails binding, or whose page offset overflows int32, gives 400 with no store call; any ListDeposits call carries the exact non-negative offset; every other request behaves as `Deposits.List` |
| `Accounts.CreateBinds` | api/account.go:15-17 | the account request binds when it decodes and the currency is non-empty and accepted by the validator |
| `Accounts.CreateErrorStatus` | api/account.go:40-49 | a CreateAccount error is answered 403 exactly for a foreign-key or unique violation, and 500 otherwise |
| `Accounts.Create` | api/account.go:19-53 | a binding failure gives 400 with no store call; otherwise exactly one CreateAccount call with owner = caller, balance 0 and the request's currency; a foreign-key or unique violation gives 403, another error 500, success 200 with the created account |
| `Accounts.GetBinds` | api/account.go:55-57 | the URI binds when the id parses and is at least 1 |
| `Accounts.Get` | api/account.go:59-89 | an id below 1 gives 400 with no lookup; otherwise exactly one GetAccount call; no rows gives 404 and other errors 500; a found account gives 200, with the account as body, exactly when its owner is the caller, and 401 otherwise |
| `Accounts.ListBinds` | api/account.go:91-94 | the query binds when it parses, page_id is at least 1 and page_size is between 5 and 10 |
| `Accounts.List` | api/account.go:96-121 | a binding failure gives 400 with no store call; otherwise exactly one ListAccounts call, always filtered by owner = caller, with limit = page size and the int32 offset; 200 happens exactly when ListAccounts succeeds |
| `Accounts.ListPage` | api/account.go:106-112 | while page_id ≤ LastPage, the single ListAccounts call has owner = caller, limit = page size and offset = (page_id − 1) × page_size, which is non-negative, a multiple of the page size, and equal to the rows on the earlier pages |
| `Accounts.ListChecked` | api/account.go:106-112 | corrected handler: a request that fails binding, or whose page offset overflows int32, gives 400 with no store call; any ListAccounts call carries the exact non-negative offset; every other request behaves as `Accounts.List` |

## Left out

- The ledger operations `TransferTx` and `DepositTx`, the transaction wrapper and the lock ordering are not part of this model. Their results arrive as the `reply` parameter, and no conservation, atomicity or deadlock-freedom claim is made.
- `CreateAccount`, `ListAccounts` and `ListDeposits` are opaque SQL. The model records their arguments and takes their result as `reply`. Which rows a page contains is not modelled.
- Authentication middleware and the token maker are not modelled. The caller's username is a parameter. The 401 answered to requests without a token comes from the middleware, so it is not in the model.
- The deposit handlers are not registered in the router (api/server.go:44-61), so they cannot be reached over HTTP. They are modelled as handlers anyway.
- Gin's binding and JSON decoding are not modelled. A request that does not decode is `None`, and the binding tags are the `Binds` predicates. The `validCurrency` validator is not part of this model. It is represented by the set `currencies`.
- Error messages in response bodies are left out, and so are `created_at` columns.
- Lookups read a fixed snapshot. Two lookups of the same id in one request therefore give the same answer, while a live store could change between them.
- Postgres error objects are reduced to `ErrKind`: foreign-key violation, unique violation, or anything else.
- `Deposits.FetchedAccount`: on a non-"no rows" lookup error, the Go driver may leave the account partly scanned. The model assumes the zero value.

## Findings

| source | as written | input that shows it | evidently intended | confidence | as-written member | corrected member |
|---|---|---|---|---|---|---|
| api/account.go:111, api/deposit.go:124 | offset = (PageID − 1) × PageSize is computed in int32. Binding bounds PageID only from below, so the product wraps around. | page_id = 2147483647, page_size = 10 gives offset −20 (page_size 5 gives 2147483638 instead of 10737418230) | the offset is (page_id − 1) × page_size, or the page is refused | not executed; high | `Paging.PageOffsetOverflows` | `Paging.CheckedPageOffset` (used by `Accounts.ListChecked`, `Deposits.ListChecked`) |
