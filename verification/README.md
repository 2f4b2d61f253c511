# User directory and RPC gateways — a Dafny model

This project models the core of a small three-service RPC system.

- **Service A** runs a gRPC user directory (`UserServiceServicer`). It keeps an in-memory dict from user id to record and a `next_user_id` counter. It starts with three sample users and serves `GetUser`, `CreateUser` and `ListUsers`.
- **Service C** runs a stateless echo RPC (`ServiceCHandler.GetData`). It wraps a name in a fixed Thai greeting.
- **Web front ends.** Services A, B and C each run a FastAPI front end. Each handler relays one RPC and folds every failure into an ordinary JSON reply. Service B also has a command-line client (`UserServiceClient`) that returns `None` when a call raises `grpc.RpcError`.

The model is functional. The directory is an immutable `Directory.Store`: an insertion-ordered dict (`OrderedDict`, Python `dict` semantics) plus the counter. Each handler is a pure function from a store and a request to a reply, and `CreateUser` also returns the new store. A handler call is one atomic step.

The calling side sees an `Rpc.Outcome` with four cases:
- `Ok`: the call returned a response.
- `RpcNotFound`: the server set NOT_FOUND.
- `TransportFail`: the channel failed.
- `LocalFail`: some other exception was raised inside the caller's `try` block.

The web handlers and the client take the stub as a function from request message to `Outcome`, so the model shows which request each one sends. `Topology` binds those stubs to the directory and echo handlers through `Rpc.Deliver`, the RPC runtime over a link that is up or down. Its lemmas follow a request end to end, including the client's `main()` sequence.

Modules and files:
- `wrappers.dfy` — `Option`.
- `decimal.dfy` — Python `str(int)` and its inverse.
- `affix.dfy` — prefix/suffix stripping for f-string messages.
- `ordered_dict.dfy` — Python `dict`.
- `json.dfy` — JSON reply bodies.
- `users.dfy` — the protobuf messages.
- `rpc.dfy` — status codes, outcomes, delivery.
- `directory.dfy` — `service_a/grpc_server.py`.
- `echo.dfy` — `service_c/main.py`.
- `user_json.dfy` — the shared user-to-JSON copy and list reply.
- `gateway_a.dfy`, `gateway_b.dfy`, `gateway_c.dfy` — the three `web_server.py` files.
- `client.dfy` — `service_b/client.py`.
- `topology.dfy` — end-to-end composition.

## Model

| member | source | states |
|---|---|---|
| `Directory.Init` | service_a/grpc_server.py:18-42 | A new servicer holds exactly John Doe/john@example.com/30, Jane Smith/jane@example.com/25 and Bob Johnson/bob@example.com/35 under ids 1, 2, 3, in that order, with `next_user_id` 4. The store is valid. |
| `Directory.AddUsers` | service_a/grpc_server.py:34-42 | The seeding loop advances the counter once per sample. On a valid store it keeps the store valid and appends each sample, in order, under consecutive ids from the counter. |
| `Directory.ValidLookup` | service_a/grpc_server.py:48-53 | In a reachable store an id is present exactly when 1 <= id < `next_user_id`. The record for id k is the k-th in insertion order. |
| `Directory.KeyIsUserId` | service_a/grpc_server.py:35-42 | Every key k of a reachable store satisfies 1 <= k < `next_user_id`, and its record's `user_id` is k. |
| `Directory.CounterIsFresh` | service_a/grpc_server.py:64-65 | In a reachable store the counter is never already a key. |
| `Directory.CreateUser` | service_a/grpc_server.py:62-83 | The new id is the old counter, and the counter grows by exactly 1. Name, email and age are stored verbatim with the given `created_at`. The returned response is the stored record. For a fresh id, exactly one entry is appended. Validity is preserved. |
| `Directory.CreateUserFrame` | service_a/grpc_server.py:75 | `CreateUser` leaves the record under every other key unchanged. |
| `Directory.GetUser` | service_a/grpc_server.py:44-60 | Status is OK exactly when the id is stored, and then the body is the stored record. Otherwise status is NOT_FOUND, the body is the empty `UserResponse`, and the details text reads back as the requested id. By `MissingIdOfDetails`, that makes it exactly `User with ID {id} not found`. |
| `Directory.MissingIdOfDetails` | service_a/grpc_server.py:50 | A details text reads back as an id exactly when it is `User with ID {id} not found` for that id, with the id written as `str` writes it. So the NOT_FOUND details `GetUser` reports are fixed character for character. |
| `Directory.ListUsers` | service_a/grpc_server.py:85-97 | One response per stored record, in the dict's insertion order, each equal to the record. In a reachable store the i-th has `user_id` i+1, so ids ascend. |
| `Directory.ListAgreesWithGet` | service_a/grpc_server.py:53-60 | In a reachable store the k-th listed record is what `GetUser(k)` returns, and that call succeeds. |
| `Directory.RunPreserves` | service_a/grpc_server.py:62-75 | Any sequence of calls keeps the store valid and advances the counter by exactly the number of creates. The old entries stay a prefix of the new ones, so earlier records never move or change. |
| `Directory.ReadOnlyRun` | service_a/grpc_server.py:44-60 | A sequence of `GetUser`/`ListUsers` calls leaves the store exactly as it was. |
| `Directory.RecordsNeverChange` | service_a/grpc_server.py:53-60 | `GetUser` on a stored id gives the same reply after any later calls, so repeated reads never drift. |
| `Directory.AssignedIdsConsecutive` | service_a/grpc_server.py:64-65 | The ids handed out by the creates of a run are the counter's start value, then +1, +2, and so on: one per create. |
| `Directory.AssignedIdsFresh` | service_a/grpc_server.py:64-75 | The ids handed out strictly increase, and none was a key before the run. |
| `Directory.ListAfterRun` | service_a/grpc_server.py:87-97 | After seeding and any calls, `ListUsers` returns 3 + (number of creates) records, with ids 1, 2, 3, … in order. |
| `OrderedDict.Get` | service_a/grpc_server.py:48-53 | `d.get(k)` finds a value exactly when k is a key, and the value is the one stored with k. |
| `OrderedDict.Put` | service_a/grpc_server.py:75 | After `d[k] = v`, k maps to v and every other key maps as before. An existing key keeps its position. A new key is appended last. |
| `OrderedDict.Values` | service_a/grpc_server.py:88 | `d.values()` yields one value per entry, in insertion order. |
| `OrderedDict.GetAt` | service_a/grpc_server.py:53 | In a dict without repeated keys, looking up the i-th entry's key gives the i-th entry's value. |
| `Decimal.ParseShow` | service_a/grpc_server.py:50 | The decimal text Python's f-string gives an integer reads back as that integer. |
| `Decimal.ShowParse` | service_a/grpc_server.py:50 | Text reads back as n exactly when it is the text `str(n)` writes. Leading zeros and `-0` are rejected. |
| `Decimal.NatDigitsFrom` | service_b/web_server.py:201 | Digits with no leading zero are exactly the rendering of the number they denote. |
| `Decimal.FromNatDigits` | service_b/web_server.py:201 | The digits of a natural number denote that number. |
| `Affix.StripWrap` | service_c/main.py:21 | Stripping the fixed prefix and suffix from an f-string message recovers the interpolated value. |
| `Echo.GetData` | service_c/main.py:17-22 | Every name, the empty one included, gets a reply. The message is the greeting, the name and the signature. The name can be read back, and it occurs in the message. |
| `Echo.NameOf` | service_c/main.py:21 | A message that strips to a name is exactly greeting + name + signature. |
| `Echo.GetDataInjective` | service_c/main.py:21 | Distinct names give distinct messages. |
| `UserJson.Encode` | service_a/web_server.py:276-282 | The reply dict has exactly the keys `user_id`, `name`, `email`, `age`, `created_at`. It decodes back to the same five values. |
| `UserJson.EncodeAll` | service_a/web_server.py:254-262 | The users loop gives one dict per response, in order. Each dict has exactly the five user keys and decodes to that response. |
| `UserJson.DecodeAllEncodeAll` | service_a/web_server.py:254-264 | The users array decodes back to the original list: same length, order and fields. |
| `GatewayA.ListUsers` | service_a/web_server.py:246-266 | On success the `users` array is the RPC's users 1:1, in order, each item a dict with exactly the five user keys, and there is no error key. On any failure `users` is `[]` and an error field carries the failure's message. |
| `GatewayA.GetUser` | service_a/web_server.py:268-284 | The id is sent unchanged in a `UserRequest`. On success the five fields are copied 1:1. On any failure the reply is only `{"error": "User not found"}` and decodes to no user. |
| `GatewayA.GetUserFailuresAlike` | service_a/web_server.py:283-284 | Any two failures, not-found or transport, give identical `get_user` replies. |
| `GatewayA.CreateUser` | service_a/web_server.py:286-306 | Name, email and age are sent unchanged. On success the five response fields are copied 1:1. On failure the reply has only an error field. |
| `GatewayB.TestGrpc` | service_b/web_server.py:191-207 | The reply has keys `status` and `message`. Status is "success" exactly on success, otherwise "error". A success message reports the number of users returned. A failure message is the error prefix followed by the failure. |
| `GatewayB.ReportedCountExact` | service_b/web_server.py:201 | A message reports n users exactly when it is the success text with n written in decimal. |
| `GatewayB.ListUsers` | service_b/web_server.py:209-229 | On success the users are mapped 1:1 in order, each item a dict with exactly the five user keys. On any failure the reply is `users = []` plus an error field. |
| `GatewayC.CallService` | service_c/web_server.py:190-200 | The name is sent unchanged in a `RequestMsg`. On success the reply is only `message`, equal to the response's message. On failure it has only an error field and no `message`. |
| `Client.GetUser` | service_b/client.py:19-27 | The id is sent unchanged. The response is returned on success. `None` is returned exactly when the call raised `RpcError`. Any other exception propagates. |
| `Client.CreateUser` | service_b/client.py:29-41 | Name, email and age are sent unchanged. The response is returned on success. `None` is returned exactly on `RpcError`. Other exceptions propagate. |
| `Client.ListUsers` | service_b/client.py:43-51 | The response is returned on success. `None` is returned exactly on `RpcError`. Other exceptions propagate. |
| `Rpc.Deliver` | service_a/grpc_server.py:48-51 | A handler reply reaches the caller as its body only when the link is up and the status is OK. A NOT_FOUND reply arrives as an `RpcError` with the handler's details. A down link is a transport failure. The caller never sees a non-RPC error from the runtime. |
| `Rpc.DeliverReply` | service_a/grpc_server.py:77-83 | A handler that returns normally, leaving the status at OK, delivers its response as the caller's result over a working link. Over a broken link the caller gets a transport failure. |
| `Topology.GatewayGetStored` | service_a/web_server.py:268-282 | Service A's `get_user` on a stored id yields that record's five fields, with `user_id` equal to the requested id. |
| `Topology.GatewayGetMissingLikeDown` | service_a/web_server.py:283-284 | `get_user` on a missing id gives the same reply as with the directory unreachable: the constant error. |
| `Topology.GatewayCreateThenGet` | service_a/web_server.py:286-304 | A user created through service A's front end gets the counter's id and the submitted fields. Reading it back through `get_user` gives an identical reply. |
| `Topology.ConnectionTestCount` | service_b/web_server.py:199-202 | After seeding and any calls, service B's connection test reports success with 3 + (number of creates) users. |
| `Topology.GatewayListIsStore` | service_b/web_server.py:217-227 | Service B's user list is the store's records in insertion order, with no error field. |
| `Topology.EchoThroughGateway` | service_c/web_server.py:195-198 | Through service C's front end, a successful reply's message contains the submitted name and reads back to it. |
| `Topology.ClientCreateReturnsStored` | service_b/client.py:29-41 | The client's `create_user` returns exactly the record the directory stored. |
| `Topology.ClientGet` | service_b/client.py:19-27 | The client's `get_user` returns the stored record for a present id and `None` for a missing one. |
| `Topology.ClientWhenDown` | service_b/client.py:25-27 | With the directory unreachable, every client method returns `None` rather than raising. |
| `Topology.MainFirstList` | service_b/client.py:76-82 | In `main()`, the first listing of a fresh directory returns 3 users. |
| `Topology.MainCreate` | service_b/client.py:84-93 | In `main()`, creating Alice Williams/alice@example.com/28 returns her record with id 4. |
| `Topology.MainGets` | service_b/client.py:95-103 | In `main()`, `get_user(1)` returns John Doe's seeded record and `get_user(999)` returns `None`. |
| `Topology.MainLastList` | service_b/client.py:105-111 | In `main()`, the final listing returns 4 users with ids 1, 2, 3, 4 in order. |

## Left out

- HTML pages of every `home()` handler: these are presentation only.
- Process and server bootstrapping: `serve()`, `uvicorn.run`, `grpc.server`, `add_insecure_port`, the sleep loops, the threads started by the `main.py` files, and the CORS middleware.
- Channel handling: `get_user_service_stub`, `get_service_c_stub`, `UserServiceClient.__init__` and `close`. These are networking plumbing. The stub they produce is a function parameter here, and a reachable or unreachable endpoint is an `Rpc.Link`.
- Concurrency. The servers run handlers on a 10-worker thread pool, and `CreateUser` reads and bumps `next_user_id` without a lock. The model treats every call as one atomic sequential step and makes no claim about interleavings. A design that needs linearizable id assignment is not what this code provides.
- Wall-clock time. `created_at` (`datetime.now().isoformat()`) is an opaque string supplied per insert. Nothing is claimed about its ordering: the code does not make timestamps monotonic, so the model does not either.
- Console output: the `print` calls, `print_user`, and the `main()` banner lines. They are logging only.
- Protobuf details: int32 range checks and message default semantics beyond the empty `UserResponse` are not modelled. Integers are unbounded. An exception raised while building a request is represented abstractly as `Rpc.LocalFail`.
- Input validation: none exists in the code. Names may be empty and emails are free text, and the model accepts any values.
- `GatewayA.ListUsers`: the error field holds the failure's own message (`Outcome.Message`), not the exact text of Python's `str(e)`, which depends on the gRPC library.
- `GatewayA.CreateUser`: the error field holds the failure's own message, not the exact `str(e)` text.
- `GatewayB.TestGrpc`: the failure message embeds the failure's own message in place of the exact `str(e)` text.
- `GatewayB.ListUsers`: the error field holds the failure's own message, not the exact `str(e)` text.
- `GatewayC.CallService`: the error field holds the failure's own message, not the exact `str(e)` text.
