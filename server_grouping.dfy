/**
 The grouping loop at the end of `get_servers_on_cluster`: a left join of
 client servers with their clients arrives as flat rows, one per
 (server, client) pair, and is reshaped into one record per distinct server
 id, in first-seen order, each holding the client columns of its rows.
 */
module ServerGrouping {
  import opened Rows

  /** One record of the output list. */
  datatype Server = Server(id: Value, createdAt: Value, updatedAt: Value, clusterName: Value, clients: seq<Row>)

  /** Which rows contribute a client entry to their server. */
  datatype ClientPolicy =
    | AppendEveryRow     // the loop as written: every row, even a left-join row without a client
    | SkipMissingClient  // corrected: only rows whose client_id is truthy

  predicate AddsClient(policy: ClientPolicy, row: Row)
  {
    policy.AppendEveryRow? || ("client_id" in row && Truthy(row["client_id"]))
  }

  /** The `servers` dictionary: its entries by id, and the order in which the
      ids were inserted (the order `servers.values()` yields them in). */
  datatype Groups = Groups(order: seq<Value>, byId: map<Value, Server>)
  {
    ghost predicate Valid()
    {
      && (forall i, j :: 0 <= i < j < |order| ==> order[i] != order[j])
      && (forall id :: id in byId <==> id in order)
      && (forall id :: id in byId ==> byId[id].id == id)
    }
  }

  predicate HasServerColumns(row: Row)
  {
    "created_at" in row && "updated_at" in row && "cluster_name" in row
  }

  /** The record opened for an id seen for the first time, filled from that
      row; the columns are looked up in the order the dict literal names them. */
  function OpenServer(sid: Value, row: Row): (r: Result<Server>)
    ensures r.Ok? <==> HasServerColumns(row)
    ensures r.Ok? ==> r.value.id == sid && r.value.clients == []
    ensures r.Ok? ==> r.value.createdAt == row["created_at"] && r.value.updatedAt == row["updated_at"]
                      && r.value.clusterName == row["cluster_name"]
  {
    if "created_at" !in row then KeyError("created_at")
    else if "updated_at" !in row then KeyError("updated_at")
    else if "cluster_name" !in row then KeyError("cluster_name")
    else Ok(Server(sid, row["created_at"], row["updated_at"], row["cluster_name"], []))
  }

  /** Appends the row's client entry to the list of server `sid`. */
  function AppendClient(policy: ClientPolicy, g: Groups, sid: Value, row: Row): (h: Groups)
    requires g.Valid() && sid in g.byId
    ensures h.Valid() && h.order == g.order && h.byId.Keys == g.byId.Keys
  {
    if AddsClient(policy, row) then
      var s := g.byId[sid];
      Groups(g.order, g.byId[sid := s.(clients := s.clients + [ClientColumns(row)])])
    else g
  }

  /** One iteration of the loop. */
  function AddRow(policy: ClientPolicy, g: Groups, row: Row): (r: Result<Groups>)
    requires g.Valid()
    ensures r.Ok? ==> "id" in row && r.value.Valid()
  {
    if "id" !in row then KeyError("id")
    else
      var sid := row["id"];
      if sid in g.byId then Ok(AppendClient(policy, g, sid, row))
      else
        match OpenServer(sid, row)
        case KeyError(c) => KeyError(c)
        case Ok(s) => Ok(AppendClient(policy, Groups(g.order + [sid], g.byId[sid := s]), sid, row))
  }

  predicate HasIds(rows: seq<Row>)
  {
    forall k :: 0 <= k < |rows| ==> "id" in rows[k]
  }

  /** The state of the `servers` dictionary after the loop has scanned `rows`. */
  function GroupRows(policy: ClientPolicy, rows: seq<Row>): (r: Result<Groups>)
    ensures r.Ok? ==> r.value.Valid() && HasIds(rows)
  {
    if rows == [] then Ok(Groups([], map[]))
    else
      match GroupRows(policy, rows[..|rows| - 1])
      case KeyError(c) => KeyError(c)
      case Ok(g) => AddRow(policy, g, rows[|rows| - 1])
  }

  /** `list(servers.values())` */
  function Servers(g: Groups): (out: seq<Server>)
    requires g.Valid()
  {
    seq(|g.order|, i requires 0 <= i < |g.order| => g.byId[g.order[i]])
  }

  /** The list the grouping returns for `rows`, or the KeyError it raises. */
  function GroupServers(policy: ClientPolicy, rows: seq<Row>): Result<seq<Server>>
  {
    match GroupRows(policy, rows)
    case KeyError(c) => KeyError(c)
    case Ok(g) => Ok(Servers(g))
  }

  /** The grouping loop of `get_servers_on_cluster`, over the rows the query
      fetched. */
  method GroupClientsByServer(rows: seq<Row>) returns (r: Result<seq<Server>>)
    ensures r == GroupServers(AppendEveryRow, rows)
  {
    var servers: map<Value, Server> := map[];
    var order: seq<Value> := [];
    var i := 0;
    while i < |rows|
      invariant 0 <= i <= |rows|
      invariant GroupRows(AppendEveryRow, rows[..i]) == Ok(Groups(order, servers))
    {
      var row := rows[i];
      assert rows[..i + 1][..i] == rows[..i];
      if "id" !in row {
        KeyErrorSticks(AppendEveryRow, rows, i + 1);
        return KeyError("id");
      }
      var sid := row["id"];
      if sid !in servers {
        var record := OpenServer(sid, row);
        if record.KeyError? {
          KeyErrorSticks(AppendEveryRow, rows, i + 1);
          return KeyError(record.column);
        }
        servers := servers[sid := record.value];
        order := order + [sid];
      }
      var client := ClientColumns(row);
      servers := servers[sid := servers[sid].(clients := servers[sid].clients + [client])];
      i := i + 1;
    }
    assert rows[..|rows|] == rows;
    r := Ok(Servers(Groups(order, servers)));
  }

  /** Once a prefix of the rows raises, the whole scan raises the same error. */
  lemma {:induction false} KeyErrorSticks(policy: ClientPolicy, rows: seq<Row>, n: nat)
    requires n <= |rows| && GroupRows(policy, rows[..n]).KeyError?
    ensures GroupRows(policy, rows) == GroupRows(policy, rows[..n])
    decreases |rows| - n
  {
    if n < |rows| {
      assert rows[..n + 1][..n] == rows[..n];
      KeyErrorSticks(policy, rows, n + 1);
    } else {
      assert rows[..n] == rows;
    }
  }

  // ---------------------------------------------------------------------
  // Reference definitions, stated directly on the rows
  // ---------------------------------------------------------------------

  /** Index of the first row whose id is `id`, or |rows| when no row has it. */
  function FirstIndex(rows: seq<Row>, id: Value): (k: nat)
    requires HasIds(rows)
    ensures k <= |rows|
    ensures k < |rows| ==> rows[k]["id"] == id
    ensures forall j :: 0 <= j < k ==> rows[j]["id"] != id
  {
    if rows == [] then 0
    else if rows[0]["id"] == id then 0
    else 1 + FirstIndex(rows[1..], id)
  }

  /** Rows the loop gets through without a KeyError: each has an id, and the
      first row of each id has the three server columns. */
  predicate WellFormed(rows: seq<Row>)
  {
    && HasIds(rows)
    && forall k :: 0 <= k < |rows| && FirstIndex(rows, rows[k]["id"]) == k ==> HasServerColumns(rows[k])
  }

  /** The client entries the rows give server `id`, in row order. */
  function ClientsOf(policy: ClientPolicy, rows: seq<Row>, id: Value): seq<Row>
    requires HasIds(rows)
  {
    if rows == [] then []
    else
      (if rows[0]["id"] == id && AddsClient(policy, rows[0]) then [ClientColumns(rows[0])] else [])
      + ClientsOf(policy, rows[1..], id)
  }

  /** The server ids occurring in the rows. */
  function RowIds(rows: seq<Row>): set<Value>
    requires HasIds(rows)
  {
    set k | 0 <= k < |rows| :: rows[k]["id"]
  }

  /** The id column, row by row. */
  function Ids(rows: seq<Row>): (ids: seq<Value>)
    requires HasIds(rows)
    ensures |ids| == |rows| && forall k :: 0 <= k < |rows| ==> ids[k] == rows[k]["id"]
  {
    seq(|rows|, k requires 0 <= k < |rows| => rows[k]["id"])
  }

  /** Number of rows that contribute a client entry. */
  function CountAdding(policy: ClientPolicy, rows: seq<Row>): nat
  {
    if rows == [] then 0
    else CountAdding(policy, rows[..|rows| - 1]) + (if AddsClient(policy, rows[|rows| - 1]) then 1 else 0)
  }

  function TotalClients(servers: seq<Server>): nat
  {
    if servers == [] then 0
    else TotalClients(servers[..|servers| - 1]) + |servers[|servers| - 1].clients|
  }

  /** What the state of the dictionary means, for the rows scanned so far. */
  ghost predicate Describes(g: Groups, policy: ClientPolicy, rows: seq<Row>)
    requires HasIds(rows)
  {
    KeysAreSeenIds(g, rows) && OrderIsFirstSeen(g, rows) && RecordsFromRows(g, policy, rows)
  }

  /** The dictionary holds exactly the ids some row has. */
  ghost predicate KeysAreSeenIds(g: Groups, rows: seq<Row>)
    requires HasIds(rows)
  {
    forall id :: id in g.byId <==> FirstIndex(rows, id) < |rows|
  }

  /** Ids are in the order of their first rows. */
  ghost predicate OrderIsFirstSeen(g: Groups, rows: seq<Row>)
    requires HasIds(rows)
  {
    forall i, j :: 0 <= i < j < |g.order| ==> FirstIndex(rows, g.order[i]) < FirstIndex(rows, g.order[j])
  }

  /** Each record holds the columns of its first row and the entries of all its rows. */
  ghost predicate RecordsFromRows(g: Groups, policy: ClientPolicy, rows: seq<Row>)
    requires HasIds(rows)
  {
    forall id :: id in g.byId ==> FirstIndex(rows, id) < |rows| && FirstRowGave(g.byId[id], policy, rows, rows[FirstIndex(rows, id)])
  }

  ghost predicate FirstRowGave(s: Server, policy: ClientPolicy, rows: seq<Row>, first: Row)
    requires HasIds(rows)
  {
    && HasServerColumns(first)
    && s.createdAt == first["created_at"]
    && s.updatedAt == first["updated_at"]
    && s.clusterName == first["cluster_name"]
    && s.clients == ClientsOf(policy, rows, s.id)
  }

  // ---------------------------------------------------------------------
  // Appending one row to the references
  // ---------------------------------------------------------------------

  lemma HasIdsSnoc(p: seq<Row>, x: Row)
    ensures HasIds(p + [x]) <==> HasIds(p) && "id" in x
  {
    if HasIds(p + [x]) {
      forall k | 0 <= k < |p| ensures "id" in p[k] {
        assert p[k] == (p + [x])[k];
      }
      assert (p + [x])[|p|] == x;
    }
  }

  lemma FirstIndexSnoc(p: seq<Row>, x: Row, id: Value)
    requires HasIds(p + [x])
    ensures HasIds(p) && "id" in x
    ensures FirstIndex(p + [x], id) ==
      if FirstIndex(p, id) < |p| then FirstIndex(p, id)
      else if x["id"] == id then |p| else |p| + 1
  {
    HasIdsSnoc(p, x);
    var rows := p + [x];
    forall j | 0 <= j < |p| ensures rows[j] == p[j] { }
    assert rows[|p|] == x;
  }

  lemma {:induction false} ClientsOfSnoc(policy: ClientPolicy, p: seq<Row>, x: Row, id: Value)
    requires HasIds(p + [x])
    ensures HasIds(p) && "id" in x
    ensures ClientsOf(policy, p + [x], id) ==
      ClientsOf(policy, p, id) + (if x["id"] == id && AddsClient(policy, x) then [ClientColumns(x)] else [])
  {
    HasIdsSnoc(p, x);
    if p != [] {
      assert (p + [x])[1..] == p[1..] + [x];
      assert (p + [x])[0] == p[0];
      ClientsOfSnoc(policy, p[1..], x, id);
    }
  }

  lemma WellFormedSnoc(p: seq<Row>, x: Row)
    ensures WellFormed(p + [x]) <==>
      WellFormed(p) && "id" in x && (FirstIndex(p, x["id"]) == |p| ==> HasServerColumns(x))
  {
    var rows := p + [x];
    HasIdsSnoc(p, x);
    if HasIds(rows) {
      forall k | 0 <= k < |p|
        ensures rows[k] == p[k] && (FirstIndex(rows, rows[k]["id"]) == k <==> FirstIndex(p, p[k]["id"]) == k)
      {
        FirstIndexSnoc(p, x, p[k]["id"]);
      }
      FirstIndexSnoc(p, x, x["id"]);
      assert rows[|p|] == x;
    }
  }

  /** A server id that no row has gets no client entries. */
  lemma {:induction false} ClientsOfAbsent(policy: ClientPolicy, rows: seq<Row>, id: Value)
    requires HasIds(rows) && FirstIndex(rows, id) == |rows|
    ensures ClientsOf(policy, rows, id) == []
  {
    if rows != [] {
      ClientsOfAbsent(policy, rows[1..], id);
    }
  }

  // ---------------------------------------------------------------------
  // The loop against the references
  // ---------------------------------------------------------------------

  /** A row whose server is already in the dictionary. */
  lemma AddRowSeen(policy: ClientPolicy, g: Groups, p: seq<Row>, x: Row)
    requires g.Valid() && HasIds(p) && Describes(g, policy, p)
    requires "id" in x && x["id"] in g.byId
    ensures AddRow(policy, g, x).Ok? && HasIds(p + [x])
    ensures Describes(AddRow(policy, g, x).value, policy, p + [x])
  {
    HasIdsSnoc(p, x);
    var rows, sid, h := p + [x], x["id"], AddRow(policy, g, x).value;
    assert h == AppendClient(policy, g, sid, x);
    SeenKeys(g, h, p, x);
    SeenOrder(g, h, p, x);
    SeenRecords(policy, g, p, x);
  }

  lemma SeenRecords(policy: ClientPolicy, g: Groups, p: seq<Row>, x: Row)
    requires g.Valid() && HasIds(p) && HasIds(p + [x]) && KeysAreSeenIds(g, p) && RecordsFromRows(g, policy, p)
    requires "id" in x && x["id"] in g.byId
    ensures RecordsFromRows(AppendClient(policy, g, x["id"], x), policy, p + [x])
  {
    var rows, h := p + [x], AppendClient(policy, g, x["id"], x);
    forall id | id in h.byId
      ensures FirstIndex(rows, id) < |rows| && FirstRowGave(h.byId[id], policy, rows, rows[FirstIndex(rows, id)])
    {
      FirstIndexSnoc(p, x, id);
      ClientsOfSnoc(policy, p, x, id);
      var k := FirstIndex(p, id);
      assert rows[k] == p[k];
      assert FirstRowGave(g.byId[id], policy, p, p[k]);
    }
  }

  lemma SeenKeys(g: Groups, h: Groups, p: seq<Row>, x: Row)
    requires HasIds(p + [x]) && HasIds(p) && KeysAreSeenIds(g, p)
    requires "id" in x && x["id"] in g.byId && h.byId.Keys == g.byId.Keys
    ensures KeysAreSeenIds(h, p + [x])
  {
    forall id ensures id in h.byId <==> FirstIndex(p + [x], id) < |p + [x]| {
      FirstIndexSnoc(p, x, id);
    }
  }

  lemma SeenOrder(g: Groups, h: Groups, p: seq<Row>, x: Row)
    requires HasIds(p + [x]) && HasIds(p) && g.Valid() && KeysAreSeenIds(g, p) && OrderIsFirstSeen(g, p)
    requires h.order == g.order
    ensures OrderIsFirstSeen(h, p + [x])
  {
    forall i, j | 0 <= i < j < |h.order| ensures FirstIndex(p + [x], h.order[i]) < FirstIndex(p + [x], h.order[j]) {
      FirstIndexSnoc(p, x, h.order[i]);
      FirstIndexSnoc(p, x, h.order[j]);
      assert h.order[j] in g.byId;
    }
  }

  /** A row whose server id is seen for the first time. */
  lemma AddRowUnseen(policy: ClientPolicy, g: Groups, p: seq<Row>, x: Row)
    requires g.Valid() && HasIds(p) && Describes(g, policy, p)
    requires "id" in x && x["id"] !in g.byId && HasServerColumns(x)
    ensures AddRow(policy, g, x).Ok? && HasIds(p + [x])
    ensures Describes(AddRow(policy, g, x).value, policy, p + [x])
  {
    HasIdsSnoc(p, x);
    var rows, sid, h := p + [x], x["id"], AddRow(policy, g, x).value;
    ClientsOfAbsent(policy, p, sid);
    var s := OpenServer(sid, x).value;
    assert h == AppendClient(policy, Groups(g.order + [sid], g.byId[sid := s]), sid, x);
    UnseenKeys(g, h, p, x);
    UnseenOrder(g, h, p, x);
    forall id | id in h.byId
      ensures FirstIndex(rows, id) < |rows| && FirstRowGave(h.byId[id], policy, rows, rows[FirstIndex(rows, id)])
    {
      FirstIndexSnoc(p, x, id);
      ClientsOfSnoc(policy, p, x, id);
      if id != sid {
        var k := FirstIndex(p, id);
        assert rows[k] == p[k];
        assert FirstRowGave(g.byId[id], policy, p, p[k]);
      } else {
        assert rows[|p|] == x;
      }
    }
  }

  lemma UnseenKeys(g: Groups, h: Groups, p: seq<Row>, x: Row)
    requires HasIds(p + [x]) && HasIds(p) && KeysAreSeenIds(g, p)
    requires "id" in x && x["id"] !in g.byId && h.byId.Keys == g.byId.Keys + {x["id"]}
    ensures KeysAreSeenIds(h, p + [x])
  {
    forall id ensures id in h.byId <==> FirstIndex(p + [x], id) < |p + [x]| {
      FirstIndexSnoc(p, x, id);
    }
  }

  lemma UnseenOrder(g: Groups, h: Groups, p: seq<Row>, x: Row)
    requires HasIds(p + [x]) && HasIds(p) && g.Valid() && KeysAreSeenIds(g, p) && OrderIsFirstSeen(g, p)
    requires "id" in x && x["id"] !in g.byId && h.order == g.order + [x["id"]]
    ensures OrderIsFirstSeen(h, p + [x])
  {
    forall i, j | 0 <= i < j < |h.order| ensures FirstIndex(p + [x], h.order[i]) < FirstIndex(p + [x], h.order[j]) {
      FirstIndexSnoc(p, x, h.order[i]);
      FirstIndexSnoc(p, x, h.order[j]);
      assert h.order[i] == g.order[i] && g.order[i] in g.byId;
    }
  }

  /** One iteration keeps the meaning of the dictionary, and raises exactly
      when the new row breaks well-formedness. */
  lemma AddRowMeaning(policy: ClientPolicy, g: Groups, p: seq<Row>, x: Row)
    requires g.Valid() && HasIds(p) && Describes(g, policy, p)
    ensures AddRow(policy, g, x).Ok? <==> "id" in x && (FirstIndex(p, x["id"]) == |p| ==> HasServerColumns(x))
    ensures AddRow(policy, g, x).Ok? ==> HasIds(p + [x]) && Describes(AddRow(policy, g, x).value, policy, p + [x])
  {
    if "id" in x {
      if x["id"] in g.byId {
        AddRowSeen(policy, g, p, x);
      } else if HasServerColumns(x) {
        AddRowUnseen(policy, g, p, x);
      }
    }
  }

  /** The scan succeeds exactly on well-formed rows, and then the dictionary
      holds what the references say. */
  lemma {:induction false} GroupRowsMeaning(policy: ClientPolicy, rows: seq<Row>)
    ensures GroupRows(policy, rows).Ok? <==> WellFormed(rows)
    ensures GroupRows(policy, rows).Ok? ==> Describes(GroupRows(policy, rows).value, policy, rows)
  {
    if rows != [] {
      var p, x := rows[..|rows| - 1], rows[|rows| - 1];
      assert rows == p + [x];
      GroupRowsMeaning(policy, p);
      WellFormedSnoc(p, x);
      if GroupRows(policy, p).Ok? {
        AddRowMeaning(policy, GroupRows(policy, p).value, p, x);
      }
    }
  }

  // ---------------------------------------------------------------------
  // What the grouping returns
  // ---------------------------------------------------------------------

  /** The grouping returns a list exactly when every row has an id and the
      first row of each id has the server columns; otherwise it raises a
      KeyError naming one of those columns. */
  lemma GroupServersSucceeds(policy: ClientPolicy, rows: seq<Row>)
    ensures GroupServers(policy, rows).Ok? <==> WellFormed(rows)
  {
    GroupRowsMeaning(policy, rows);
  }

  lemma {:induction false} DistinctCard(ids: seq<Value>)
    requires forall i, j :: 0 <= i < j < |ids| ==> ids[i] != ids[j]
    ensures |set v | v in ids| == |ids|
  {
    if ids != [] {
      var rest := ids[1..];
      DistinctCard(rest);
      assert (set v | v in ids) == {ids[0]} + (set v | v in rest);
    }
  }

  /** The ids of the servers, in list order. */
  function ServerIds(out: seq<Server>): (ids: seq<Value>)
    ensures |ids| == |out| && forall i :: 0 <= i < |out| ==> ids[i] == out[i].id
  {
    seq(|out|, i requires 0 <= i < |out| => out[i].id)
  }

  /** The output list is the dictionary's records in insertion order, and
      the dictionary means what the references say. */
  lemma OutputFacts(policy: ClientPolicy, rows: seq<Row>, out: seq<Server>) returns (g: Groups)
    requires GroupServers(policy, rows) == Ok(out)
    ensures GroupRows(policy, rows) == Ok(g) && g.Valid() && HasIds(rows) && Describes(g, policy, rows)
    ensures |out| == |g.order|
    ensures forall i :: 0 <= i < |out| ==> g.order[i] in g.byId && out[i] == g.byId[g.order[i]] && out[i].id == g.order[i]
  {
    GroupRowsMeaning(policy, rows);
    g := GroupRows(policy, rows).value;
    assert out == Servers(g);
  }

  /** Every distinct server id of the rows gives exactly one server, and the
      servers come in the order their ids were first seen. */
  lemma GroupServersFirstSeen(policy: ClientPolicy, rows: seq<Row>, out: seq<Server>)
    requires GroupServers(policy, rows) == Ok(out)
    ensures HasIds(rows)
    ensures forall i, j :: 0 <= i < j < |out| ==> FirstIndex(rows, out[i].id) < FirstIndex(rows, out[j].id)
    ensures forall i :: 0 <= i < |out| ==> FirstIndex(rows, out[i].id) < |rows|
    ensures forall k :: 0 <= k < |rows| ==> rows[k]["id"] in ServerIds(out)
    ensures |out| == |RowIds(rows)|
    ensures rows == [] ==> out == []
  {
    var g := OutputFacts(policy, rows, out);
    assert OrderIsFirstSeen(g, rows) && KeysAreSeenIds(g, rows);
    EveryIdHasServer(g, rows, out);
    ServerCount(g, rows, out);
  }

  lemma EveryIdHasServer(g: Groups, rows: seq<Row>, out: seq<Server>)
    requires g.Valid() && HasIds(rows) && KeysAreSeenIds(g, rows)
    requires |out| == |g.order| && forall i :: 0 <= i < |out| ==> out[i].id == g.order[i]
    ensures forall k :: 0 <= k < |rows| ==> rows[k]["id"] in ServerIds(out)
  {
    forall k | 0 <= k < |rows| ensures rows[k]["id"] in ServerIds(out) {
      var id := rows[k]["id"];
      assert FirstIndex(rows, id) <= k;
      assert id in g.byId;
      var i :| 0 <= i < |g.order| && g.order[i] == id;
      assert ServerIds(out)[i] == id;
    }
  }

  lemma ServerCount(g: Groups, rows: seq<Row>, out: seq<Server>)
    requires g.Valid() && HasIds(rows) && KeysAreSeenIds(g, rows) && |out| == |g.order|
    ensures |out| == |RowIds(rows)|
  {
    forall v ensures v in g.order <==> v in RowIds(rows) {
      if v in RowIds(rows) {
        var k :| 0 <= k < |rows| && rows[k]["id"] == v;
        assert FirstIndex(rows, v) <= k;
      }
      if v in g.order {
        assert rows[FirstIndex(rows, v)]["id"] == v;
      }
    }
    assert (set v | v in g.order) == RowIds(rows);
    DistinctCard(g.order);
  }

  /** A server's created_at, updated_at and cluster_name are those of the
      first row with its id; no later row overwrites them. */
  lemma GroupServersFirstRowColumns(policy: ClientPolicy, rows: seq<Row>, out: seq<Server>)
    requires GroupServers(policy, rows) == Ok(out)
    ensures HasIds(rows)
    ensures forall i :: 0 <= i < |out| ==> (
      && FirstIndex(rows, out[i].id) < |rows|
      && HasServerColumns(rows[FirstIndex(rows, out[i].id)])
      && out[i].createdAt == rows[FirstIndex(rows, out[i].id)]["created_at"]
      && out[i].updatedAt == rows[FirstIndex(rows, out[i].id)]["updated_at"]
      && out[i].clusterName == rows[FirstIndex(rows, out[i].id)]["cluster_name"])
  {
    var g := OutputFacts(policy, rows, out);
    assert RecordsFromRows(g, policy, rows);
  }

  /** A server's client list holds the entries of the rows carrying its id,
      in row order. */
  lemma GroupServersClients(policy: ClientPolicy, rows: seq<Row>, out: seq<Server>)
    requires GroupServers(policy, rows) == Ok(out)
    ensures HasIds(rows)
    ensures forall i :: 0 <= i < |out| ==> out[i].clients == ClientsOf(policy, rows, out[i].id)
  {
    var g := OutputFacts(policy, rows, out);
    assert RecordsFromRows(g, policy, rows);
  }

  /** As written, a server gets one entry for every row with its id, so its
      list is as long as the number of those rows. */
  lemma {:induction false} ClientsOfCount(rows: seq<Row>, id: Value)
    requires HasIds(rows)
    ensures |ClientsOf(AppendEveryRow, rows, id)| == multiset(Ids(rows))[id]
  {
    if rows != [] {
      ClientsOfCount(rows[1..], id);
      assert Ids(rows) == [rows[0]["id"]] + Ids(rows[1..]);
    }
  }

  /** A server's list is empty exactly when none of its rows contributes an entry. */
  lemma {:induction false} ClientsOfEmpty(policy: ClientPolicy, rows: seq<Row>, id: Value)
    requires HasIds(rows)
    ensures ClientsOf(policy, rows, id) == [] <==>
      forall k :: 0 <= k < |rows| && rows[k]["id"] == id ==> !AddsClient(policy, rows[k])
  {
    if rows != [] {
      ClientsOfEmpty(policy, rows[1..], id);
      forall k | 1 <= k < |rows| ensures rows[k] == rows[1..][k - 1] { }
    }
  }

  lemma {:induction false} TotalClientsUpdate(servers: seq<Server>, j: nat, s: Server)
    requires j < |servers|
    ensures TotalClients(servers[j := s]) == TotalClients(servers) - |servers[j].clients| + |s.clients|
  {
    var n := |servers|;
    var u := servers[j := s];
    assert u[..n - 1] == if j < n - 1 then servers[..n - 1][j := s] else servers[..n - 1];
    if j < n - 1 {
      TotalClientsUpdate(servers[..n - 1], j, s);
    }
  }

  lemma AppendClientTotal(policy: ClientPolicy, g: Groups, sid: Value, row: Row)
    requires g.Valid() && sid in g.byId
    ensures TotalClients(Servers(AppendClient(policy, g, sid, row))) ==
      TotalClients(Servers(g)) + (if AddsClient(policy, row) then 1 else 0)
  {
    if AddsClient(policy, row) {
      var h := AppendClient(policy, g, sid, row);
      var j :| 0 <= j < |g.order| && g.order[j] == sid;
      assert Servers(h) == Servers(g)[j := h.byId[sid]];
      TotalClientsUpdate(Servers(g), j, h.byId[sid]);
    }
  }

  /** Opening a record adds no entry. */
  lemma OpenServerTotal(g: Groups, sid: Value, s: Server)
    requires g.Valid() && sid !in g.byId && s.id == sid && s.clients == []
    ensures Groups(g.order + [sid], g.byId[sid := s]).Valid()
    ensures TotalClients(Servers(Groups(g.order + [sid], g.byId[sid := s]))) == TotalClients(Servers(g))
  {
    var g1 := Groups(g.order + [sid], g.byId[sid := s]);
    assert Servers(g1) == Servers(g) + [s];
    assert Servers(g1)[..|Servers(g1)| - 1] == Servers(g);
  }

  lemma AddRowTotal(policy: ClientPolicy, g: Groups, x: Row)
    requires g.Valid() && AddRow(policy, g, x).Ok?
    ensures TotalClients(Servers(AddRow(policy, g, x).value)) ==
      TotalClients(Servers(g)) + (if AddsClient(policy, x) then 1 else 0)
  {
    var sid := x["id"];
    if sid in g.byId {
      AppendClientTotal(policy, g, sid, x);
    } else {
      var s := OpenServer(sid, x).value;
      OpenServerTotal(g, sid, s);
      AppendClientTotal(policy, Groups(g.order + [sid], g.byId[sid := s]), sid, x);
    }
  }

  lemma {:induction false} GroupRowsTotal(policy: ClientPolicy, rows: seq<Row>)
    ensures GroupRows(policy, rows).Ok? ==>
      TotalClients(Servers(GroupRows(policy, rows).value)) == CountAdding(policy, rows)
  {
    if rows != [] && GroupRows(policy, rows).Ok? {
      var p, x := rows[..|rows| - 1], rows[|rows| - 1];
      GroupRowsTotal(policy, p);
      AddRowTotal(policy, GroupRows(policy, p).value, x);
    }
  }

  lemma {:induction false} CountAddingAll(rows: seq<Row>)
    ensures CountAdding(AppendEveryRow, rows) == |rows|
  {
    if rows != [] {
      CountAddingAll(rows[..|rows| - 1]);
    }
  }

  /** The lists together hold one entry per contributing row; as written,
      one entry per row. */
  lemma TotalClientsCount(policy: ClientPolicy, rows: seq<Row>, out: seq<Server>)
    requires GroupServers(policy, rows) == Ok(out)
    ensures TotalClients(out) == CountAdding(policy, rows)
    ensures policy == AppendEveryRow ==> TotalClients(out) == |rows|
  {
    GroupRowsTotal(policy, rows);
    CountAddingAll(rows);
  }

  // ---------------------------------------------------------------------
  // A server without clients
  // ---------------------------------------------------------------------

  /** As written, no server in the output has an empty client list: a server
      whose left join found no client still gets the entry of its null row. */
  lemma ServerNeverWithoutClients(rows: seq<Row>, out: seq<Server>)
    requires GroupServers(AppendEveryRow, rows) == Ok(out)
    ensures forall i :: 0 <= i < |out| ==> |out[i].clients| >= 1
  {
    GroupServersFirstSeen(AppendEveryRow, rows, out);
    GroupServersClients(AppendEveryRow, rows, out);
    forall i | 0 <= i < |out| ensures |out[i].clients| >= 1 {
      ClientsOfEmpty(AppendEveryRow, rows, out[i].id);
      assert rows[FirstIndex(rows, out[i].id)]["id"] == out[i].id;
    }
  }

  /** The single row the left join yields for server "s1" of cluster "c"
      when no client belongs to it. */
  function LoneServerRow(): Row
  {
    map["id" := Text("s1"), "created_at" := Timestamp(0), "updated_at" := Timestamp(0),
        "cluster_name" := Text("c"), "client_id" := Null, "client_name" := Null,
        "client_user_id" := Null, "client_created_at" := Null, "client_updated_at" := Null]
  }

  /** As written, that server is reported with one client whose columns are all null. */
  lemma LoneServerGetsNullClient()
    ensures GroupServers(AppendEveryRow, [LoneServerRow()]).Ok?
    ensures var out := GroupServers(AppendEveryRow, [LoneServerRow()]).value;
      |out| == 1 && out[0].id == Text("s1") && |out[0].clients| == 1
      && "client_id" in out[0].clients[0] && out[0].clients[0]["client_id"] == Null
  {
    var rows := [LoneServerRow()];
    assert rows[..0] == [];
    assert "client_id" in ClientColumns(LoneServerRow());
  }

  /** With the null check, a server's list is empty exactly when none of its
      rows has a truthy client_id. */
  lemma SkipMissingClientEmptyIff(rows: seq<Row>, out: seq<Server>)
    requires GroupServers(SkipMissingClient, rows) == Ok(out)
    ensures HasIds(rows)
    ensures forall i :: 0 <= i < |out| ==> (out[i].clients == [] <==>
      forall k :: 0 <= k < |rows| && rows[k]["id"] == out[i].id ==>
        !("client_id" in rows[k] && Truthy(rows[k]["client_id"])))
  {
    GroupServersClients(SkipMissingClient, rows, out);
    forall i | 0 <= i < |out| ensures out[i].clients == [] <==>
      forall k :: 0 <= k < |rows| && rows[k]["id"] == out[i].id ==>
        !("client_id" in rows[k] && Truthy(rows[k]["client_id"]))
    {
      ClientsOfEmpty(SkipMissingClient, rows, out[i].id);
    }
  }

  /** With the null check, the same server is reported with no clients. */
  lemma LoneServerCorrected()
    ensures GroupServers(SkipMissingClient, [LoneServerRow()]).Ok?
    ensures var out := GroupServers(SkipMissingClient, [LoneServerRow()]).value;
      |out| == 1 && out[0].id == Text("s1") && out[0].clients == []
  {
    var rows := [LoneServerRow()];
    assert rows[..0] == [];
  }
}
