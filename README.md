# Join-result materializer

A model of the join-result materializer in `back-end/app/api/utils.py`. A
left join comes back from the database as flat rows, one per parent/child
pair. The materializer turns these rows into nested records. It has two
parts.

- **Server grouping** is the loop at the end of `get_servers_on_cluster`. It
  scans the rows of `ClientServer LEFT JOIN Client` and keeps a dictionary
  `servers` keyed by server `id`. The first row of an id opens that id's
  record with `created_at`, `updated_at`, `cluster_name` and an empty
  `clients` list. Every row then appends one client entry to its server's
  list. The entry holds the row's columns whose names start with `client_`.
  The result is `list(servers.values())`, so servers come in first-seen
  order.
- **User materialization** is `process_user_data`. It takes the rows of
  `User LEFT JOIN Client` for one user. No rows gives `None`. Otherwise the
  user's identity columns come from the first row, and each row whose
  `client_id` is truthy adds one client record, in row order.

Files:

- `rows.dfy` (module `Rows`): column values, Python truthiness, rows as
  `map<string, Value>`, the `client_` column filter, and the `Result` type.
  `Result.KeyError(column)` stands for the `KeyError` that a row lookup
  `row[...]` raises when the column is missing.
- `server_grouping.dfy` (module `ServerGrouping`): the grouping loop as a
  method, `GroupClientsByServer`. The `servers` dictionary and its insertion
  order are the loop's local state. The method is proved equal to
  `GroupServers`, a fold of the loop body `AddRow` over the rows. Lemmas
  compare that fold with definitions stated directly on the rows. The loop
  body is `AddRow` (back-end/app/api/utils.py:47-58). It opens a record
  with `OpenServer` when the id is new (lines 48-55). It then appends the
  row's entry with `AppendClient` (lines 57-58). `Servers` is
  `list(servers.values())` (line 61). The references are
  `FirstIndex` (the first row of an id) and `ClientsOf` (the entries of an
  id's rows, in row order).
- `user_data.dfy` (module `UserData`): `process_user_data` as a method,
  `ProcessUserData`. It is proved equal to `MaterializeUser`. Lemmas compare
  that function with `Selected`, which builds one client record per row with
  a truthy `client_id`.

The client test in `process_user_data` is Python truthiness (line 86), not
"not null": `None`, `False`, `0` and `""` all skip the row. The model follows
the code (`Rows.Truthy`). Timestamps are always truthy, because Python
datetime objects are.

Both operations raise `KeyError` on a missing column, in the order the
source looks columns up. For server grouping that means `id` on every row,
then the three server columns on the first row of an id only. For user
materialization it means the five identity columns of the first row, then
`client_id` on every row, then the four client columns on rows that pass the
test. The model returns `KeyError(column)` for the first failing lookup.
Lemmas state exactly which inputs fail.

## Model

| member | source | states |
|---|---|---|
| `Rows.ClientColumns` | back-end/app/api/utils.py:57 | A client entry has exactly the row's columns whose names start with `client_`. Each value is the row's value, unchanged. |
| `ServerGrouping.OpenServer` | back-end/app/api/utils.py:48-55 | A new server record exists exactly when the row has `created_at`, `updated_at` and `cluster_name`. It carries the row's id, that row's three columns, and an empty client list. |
| `ServerGrouping.GroupRows` | back-end/app/api/utils.py:45-58 | After any prefix of rows, the dictionary's ids are distinct. Its keys are exactly its insertion order, and each record's `id` is its key. |
| `ServerGrouping.GroupClientsByServer` | back-end/app/api/utils.py:44-61 | The loop returns exactly `GroupServers(AppendEveryRow, rows)`: the list, or the KeyError of the first failing lookup. |
| `ServerGrouping.KeyErrorSticks` | back-end/app/api/utils.py:46-58 | Once a row raises, the whole call raises that same error. Later rows do not matter. |
| `ServerGrouping.GroupRowsMeaning` | back-end/app/api/utils.py:45-58 | The scan succeeds exactly on well-formed rows. The dictionary then holds exactly the ids that occur, in first-seen order. Each record has its first row's columns and the entries of all its rows. |
| `ServerGrouping.GroupServersSucceeds` | back-end/app/api/utils.py:47-53 | A list comes back exactly when every row has an `id` and the first row of each id has the three server columns. |
| `ServerGrouping.GroupServersFirstSeen` | back-end/app/api/utils.py:45-61 | Servers are ordered by the index of their id's first row, strictly, so no id appears twice. Every id in the rows has a server, and every server's id occurs in the rows. There are as many servers as distinct ids. Empty input gives an empty list. |
| `ServerGrouping.GroupServersFirstRowColumns` | back-end/app/api/utils.py:48-55 | A server's `created_at`, `updated_at` and `cluster_name` are those of the first row with its id. Later rows with that id never overwrite them. |
| `ServerGrouping.GroupServersClients` | back-end/app/api/utils.py:46-58 | A server's client list is `ClientsOf` its id: one entry per contributing row with that id, in input row order. |
| `ServerGrouping.ClientsOfCount` | back-end/app/api/utils.py:57-58 | As written, a server's list is as long as the number of rows with its id (the id's multiplicity in the id column). |
| `ServerGrouping.ClientsOfEmpty` | back-end/app/api/utils.py:57-58 | A server's list is empty exactly when none of the rows with its id contributes an entry. |
| `ServerGrouping.TotalClientsCount` | back-end/app/api/utils.py:57-58 | All the lists together hold one entry per contributing row. As written, that is exactly one entry per input row. |
| `ServerGrouping.ServerNeverWithoutClients` | back-end/app/api/utils.py:57-58 | As written, no server in the output has an empty client list. This holds even when the left join found no client. |
| `ServerGrouping.LoneServerGetsNullClient` | back-end/app/api/utils.py:57-58 | As written, the single left-join row of a server without clients gives that server one client whose `client_id` is null. |
| `ServerGrouping.SkipMissingClientEmptyIff` | back-end/app/api/utils.py:57-58 | With the `client_id` check, a server's list is empty exactly when none of its rows has a truthy `client_id`. |
| `ServerGrouping.LoneServerCorrected` | back-end/app/api/utils.py:57-58 | With the `client_id` check, the same lone row gives that server an empty client list. |
| `UserData.ReadUser` | back-end/app/api/utils.py:76-83 | The user record is built exactly when the row has `id`, `name`, `email`, `emailVerified` and `image`. Those five fields are the row's values, and the client list starts empty. |
| `UserData.ReadClient` | back-end/app/api/utils.py:87-93 | The client record is built exactly when the row has `name`, `user_id`, `created_at` and `updated_at`. Its `id` is `client_id` and its other fields are the row's columns. |
| `UserData.ProcessUserData` | back-end/app/api/utils.py:72-96 | The method returns exactly `MaterializeUser(rows)`: `None`, the user, or the KeyError of the first failing lookup. |
| `UserData.ClientErrorSticks` | back-end/app/api/utils.py:85-94 | Once a row raises in the client loop, the whole loop raises that same error. |
| `UserData.CollectClientsMeaning` | back-end/app/api/utils.py:85-94 | The client loop succeeds exactly on well-formed rows. It then yields `Selected(rows)`: one record per row with a truthy `client_id`, in row order. |
| `UserData.SelectedBounds` | back-end/app/api/utils.py:85-94 | There are no more selected records than rows. Every record's `id` is truthy. There are none exactly when no row has a truthy `client_id`. |
| `UserData.UserAbsentIffNoRows` | back-end/app/api/utils.py:73-74 | The result is `None` exactly when the input is empty. |
| `UserData.UserSucceeds` | back-end/app/api/utils.py:72-94 | The call returns without raising exactly when the input is empty, or when the first row has the five identity columns and every row is well-formed for the client loop. |
| `UserData.UserIdentityFromFirstRow` | back-end/app/api/utils.py:76-83 | The user's `id`, `name`, `email`, `emailVerified` and `image` are those of the first row. |
| `UserData.UserIdentityIgnoresLaterRows` | back-end/app/api/utils.py:76-83 | Two inputs with the same first row give users that differ at most in their client lists. |
| `UserData.UserClients` | back-end/app/api/utils.py:85-94 | The user's clients are `Selected(rows)`, in row order. There are at most as many as rows, each has a truthy `id`, and there are none exactly when no row has a truthy `client_id`. |

## Left out

- `get_user_data`, `get_client_data` and the query half of `get_servers_on_cluster` (back-end/app/api/utils.py:7-42) are database I/O through psycopg2. The model takes the fetched rows as its input.
- How `DictCursor` resolves duplicate column names in `u.*, c.*` is driver behaviour. Rows are given as maps. `process_user_data` reads the user's `name` and the client's `name` from the same `name` key, and the model does the same.
- `docker_client`, `create_docker_container` and `maintain_container_health` (back-end/app/api/utils.py:5, 64-70) are left out. The first is a foreign client and the other two are stubs without behaviour.
- `back-end/app/api/routes.py` (HTTP handlers over an unpopulated global map and Docker objects), `back-end/app/main.py` (app wiring and startup) and `back-end/app/config.py` (environment loading) are not part of this model.
- Python key equality is not modelled: `1`, `1.0` and `True` are the same dictionary key in Python. Server ids here are compared as `Value`s, structurally.
- Key order inside a client dict is not modelled. It follows `row.keys()`, but a Dafny map has no order.
- `process_user_data` also returns `None` for a `None` argument. The model's input is always a sequence.
- GroupServersSucceeds: states when a KeyError is raised, not which column it names. The column is the first one missing in the lookup order, which `AddRow` and `OpenServer` spell out.
- UserSucceeds: states when a KeyError is raised, not which column it names. The column is the first one missing in the lookup order, which `ReadUser`, `AddClientRow` and `ReadClient` spell out.

## Findings

| source | as written | input that shows it | evidently intended | confidence | as-written member | corrected member |
|---|---|---|---|---|---|---|
| back-end/app/api/utils.py:57-58 | Every row appends a client entry to its server. Nothing checks that the left join found a client. | One row for server `s1` whose `client_*` columns are all null (`LoneServerRow`). The server comes back with one client whose `client_id` is null. | A server without clients gets an empty list, as `process_user_data` does by testing `client_id` (line 86) | medium, not executed | `ServerGrouping.LoneServerGetsNullClient` | `ServerGrouping.SkipMissingClientEmptyIff` |

The grouping is parameterised by a `ClientPolicy`. `AppendEveryRow` is the code as written. `SkipMissingClient` appends only rows with a truthy `client_id`, like `row.get("client_id")`. These lemmas hold for both policies: `GroupRowsMeaning`, `GroupServersSucceeds`, `GroupServersFirstSeen`, `GroupServersFirstRowColumns`, `GroupServersClients`, `ClientsOfEmpty` and `KeyErrorSticks`. The first clause of `TotalClientsCount` also holds for both: the total equals the number of contributing rows. Its second clause, that the total is `|rows|`, covers only `AppendEveryRow`. So do `ClientsOfCount`, `ServerNeverWithoutClients` and `LoneServerGetsNullClient`. Under `SkipMissingClient`, a server's list is as long as the number of its rows with a truthy `client_id`, not its row count. `SkipMissingClientEmptyIff` and `LoneServerCorrected` cover only `SkipMissingClient`. `GroupClientsByServer` follows the code as written.
