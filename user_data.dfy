/**
 `process_user_data`: the rows of a left join of one user with that user's
 clients become a single user record holding a list of client records.
 */
module UserData {
  import opened Rows

  /** A client record of the user's list. */
  datatype Client = Client(id: Value, name: Value, userId: Value, createdAt: Value, updatedAt: Value)

  datatype User = User(id: Value, name: Value, email: Value, emailVerified: Value, image: Value, clients: seq<Client>)

  predicate HasUserColumns(row: Row)
  {
    "id" in row && "name" in row && "email" in row && "emailVerified" in row && "image" in row
  }

  /** The user dict literal, built from the first row; its columns are looked
      up in the order the literal names them. */
  function ReadUser(row: Row): (r: Result<User>)
    ensures r.Ok? <==> HasUserColumns(row)
    ensures r.Ok? ==> r.value.clients == []
    ensures r.Ok? ==> r.value.id == row["id"] && r.value.name == row["name"] && r.value.email == row["email"]
                      && r.value.emailVerified == row["emailVerified"] && r.value.image == row["image"]
  {
    if "id" !in row then KeyError("id")
    else if "name" !in row then KeyError("name")
    else if "email" !in row then KeyError("email")
    else if "emailVerified" !in row then KeyError("emailVerified")
    else if "image" !in row then KeyError("image")
    else Ok(User(row["id"], row["name"], row["email"], row["emailVerified"], row["image"], []))
  }

  predicate HasClientColumns(row: Row)
  {
    "client_id" in row && "name" in row && "user_id" in row && "created_at" in row && "updated_at" in row
  }

  /** The client record a row stands for. */
  function ClientOf(row: Row): Client
    requires HasClientColumns(row)
  {
    Client(row["client_id"], row["name"], row["user_id"], row["created_at"], row["updated_at"])
  }

  /** The client dict literal, with its lookups in the order it names them. */
  function ReadClient(row: Row): (r: Result<Client>)
    requires "client_id" in row
    ensures r.Ok? <==> HasClientColumns(row)
    ensures r.Ok? ==> r.value == ClientOf(row)
  {
    if "name" !in row then KeyError("name")
    else if "user_id" !in row then KeyError("user_id")
    else if "created_at" !in row then KeyError("created_at")
    else if "updated_at" !in row then KeyError("updated_at")
    else Ok(ClientOf(row))
  }

  /** One iteration of the loop over the rows. */
  function AddClientRow(clients: seq<Client>, row: Row): Result<seq<Client>>
  {
    if "client_id" !in row then KeyError("client_id")
    else if !Truthy(row["client_id"]) then Ok(clients)
    else
      match ReadClient(row)
      case KeyError(c) => KeyError(c)
      case Ok(client) => Ok(clients + [client])
  }

  /** The user's client list after the loop has scanned `rows`. */
  function CollectClients(rows: seq<Row>): Result<seq<Client>>
  {
    if rows == [] then Ok([])
    else
      match CollectClients(rows[..|rows| - 1])
      case KeyError(c) => KeyError(c)
      case Ok(clients) => AddClientRow(clients, rows[|rows| - 1])
  }

  /** What `process_user_data` returns for `rows` (None for no rows), or the
      KeyError it raises. */
  function MaterializeUser(rows: seq<Row>): Result<Option<User>>
  {
    if rows == [] then Ok(None)
    else
      match ReadUser(rows[0])
      case KeyError(c) => KeyError(c)
      case Ok(user) =>
        match CollectClients(rows)
        case KeyError(c) => KeyError(c)
        case Ok(clients) => Ok(Some(user.(clients := clients)))
  }

  method ProcessUserData(rows: seq<Row>) returns (r: Result<Option<User>>)
    ensures r == MaterializeUser(rows)
  {
    if |rows| == 0 {
      return Ok(None);
    }
    var read := ReadUser(rows[0]);
    if read.KeyError? {
      return KeyError(read.column);
    }
    var user := read.value;
    var i := 0;
    while i < |rows|
      invariant 0 <= i <= |rows|
      invariant CollectClients(rows[..i]) == Ok(user.clients)
      invariant user == read.value.(clients := user.clients)
    {
      var row := rows[i];
      assert rows[..i + 1][..i] == rows[..i];
      if "client_id" !in row {
        ClientErrorSticks(rows, i + 1);
        return KeyError("client_id");
      }
      if Truthy(row["client_id"]) {
        var client := ReadClient(row);
        if client.KeyError? {
          ClientErrorSticks(rows, i + 1);
          return KeyError(client.column);
        }
        user := user.(clients := user.clients + [client.value]);
      }
      i := i + 1;
    }
    assert rows[..|rows|] == rows;
    return Ok(Some(user));
  }

  /** Once a prefix of the rows raises, the whole loop raises the same error. */
  lemma {:induction false} ClientErrorSticks(rows: seq<Row>, n: nat)
    requires n <= |rows| && CollectClients(rows[..n]).KeyError?
    ensures CollectClients(rows) == CollectClients(rows[..n])
    decreases |rows| - n
  {
    if n < |rows| {
      assert rows[..n + 1][..n] == rows[..n];
      ClientErrorSticks(rows, n + 1);
    } else {
      assert rows[..n] == rows;
    }
  }

  // ---------------------------------------------------------------------
  // Reference definitions, stated directly on the rows
  // ---------------------------------------------------------------------

  /** Rows the loop gets through without a KeyError: each has a client_id,
      and each with a truthy client_id has the client columns. */
  predicate ClientRowsWellFormed(rows: seq<Row>)
  {
    forall k :: 0 <= k < |rows| ==>
      "client_id" in rows[k] && (Truthy(rows[k]["client_id"]) ==> HasClientColumns(rows[k]))
  }

  /** One client record per row with a truthy client_id, in row order. */
  function Selected(rows: seq<Row>): seq<Client>
    requires ClientRowsWellFormed(rows)
  {
    if rows == [] then []
    else
      (if Truthy(rows[0]["client_id"]) then [ClientOf(rows[0])] else [])
      + Selected(rows[1..])
  }

  lemma ClientRowsWellFormedSnoc(p: seq<Row>, x: Row)
    ensures ClientRowsWellFormed(p + [x]) <==>
      ClientRowsWellFormed(p) && "client_id" in x && (Truthy(x["client_id"]) ==> HasClientColumns(x))
  {
    assert (p + [x])[|p|] == x;
    forall k | 0 <= k < |p| ensures (p + [x])[k] == p[k] { }
  }

  lemma {:induction false} SelectedSnoc(p: seq<Row>, x: Row)
    requires ClientRowsWellFormed(p + [x])
    ensures ClientRowsWellFormed(p) && "client_id" in x && (Truthy(x["client_id"]) ==> HasClientColumns(x))
    ensures Selected(p + [x]) == Selected(p) + (if Truthy(x["client_id"]) then [ClientOf(x)] else [])
  {
    ClientRowsWellFormedSnoc(p, x);
    if p != [] {
      assert (p + [x])[1..] == p[1..] + [x];
      assert (p + [x])[0] == p[0];
      SelectedSnoc(p[1..], x);
    }
  }

  /** The loop succeeds exactly on well-formed rows, and then collects the
      selected client records. */
  lemma {:induction false} CollectClientsMeaning(rows: seq<Row>)
    ensures CollectClients(rows).Ok? <==> ClientRowsWellFormed(rows)
    ensures CollectClients(rows).Ok? ==> CollectClients(rows).value == Selected(rows)
  {
    if rows != [] {
      var p, x := rows[..|rows| - 1], rows[|rows| - 1];
      assert rows == p + [x];
      CollectClientsMeaning(p);
      ClientRowsWellFormedSnoc(p, x);
      if ClientRowsWellFormed(rows) {
        SelectedSnoc(p, x);
      }
    }
  }

  /** The selected records: no more than the rows, each with a truthy id, and
      none exactly when no row has a truthy client_id. */
  lemma {:induction false} SelectedBounds(rows: seq<Row>)
    requires ClientRowsWellFormed(rows)
    ensures |Selected(rows)| <= |rows|
    ensures forall c :: c in Selected(rows) ==> Truthy(c.id)
    ensures Selected(rows) == [] <==> forall k :: 0 <= k < |rows| ==> !Truthy(rows[k]["client_id"])
  {
    if rows != [] {
      assert ClientRowsWellFormed(rows[1..]) by {
        forall k | 0 <= k < |rows| - 1 ensures rows[1..][k] == rows[k + 1] { }
      }
      SelectedBounds(rows[1..]);
      forall k | 1 <= k < |rows| ensures rows[k] == rows[1..][k - 1] { }
    }
  }

  // ---------------------------------------------------------------------
  // What process_user_data returns
  // ---------------------------------------------------------------------

  /** No user exactly when there are no rows. */
  lemma UserAbsentIffNoRows(rows: seq<Row>)
    ensures MaterializeUser(rows) == Ok(None) <==> rows == []
  {
  }

  /** The call returns without raising exactly when there are no rows, or the
      first row has the user columns and the rows are well-formed for the loop. */
  lemma UserSucceeds(rows: seq<Row>)
    ensures MaterializeUser(rows).Ok? <==>
      rows == [] || (HasUserColumns(rows[0]) && ClientRowsWellFormed(rows))
  {
    CollectClientsMeaning(rows);
  }

  /** The user's identity columns are those of the first row. */
  lemma UserIdentityFromFirstRow(rows: seq<Row>, u: User)
    requires MaterializeUser(rows) == Ok(Some(u))
    ensures rows != [] && HasUserColumns(rows[0])
    ensures u.id == rows[0]["id"] && u.name == rows[0]["name"] && u.email == rows[0]["email"]
    ensures u.emailVerified == rows[0]["emailVerified"] && u.image == rows[0]["image"]
  {
  }

  /** No row but the first affects the identity columns. */
  lemma UserIdentityIgnoresLaterRows(rows: seq<Row>, rows': seq<Row>, u: User, u': User)
    requires MaterializeUser(rows) == Ok(Some(u)) && MaterializeUser(rows') == Ok(Some(u'))
    requires rows[0] == rows'[0]
    ensures u.(clients := []) == u'.(clients := [])
  {
    UserIdentityFromFirstRow(rows, u);
    UserIdentityFromFirstRow(rows', u');
  }

  /** The user's clients are, in row order, one record per row with a truthy
      client_id; there are no more of them than rows, and none when no row
      has a truthy client_id. */
  lemma UserClients(rows: seq<Row>, u: User)
    requires MaterializeUser(rows) == Ok(Some(u))
    ensures ClientRowsWellFormed(rows) && u.clients == Selected(rows)
    ensures |u.clients| <= |rows|
    ensures forall c :: c in u.clients ==> Truthy(c.id)
    ensures u.clients == [] <==> forall k :: 0 <= k < |rows| ==> !Truthy(rows[k]["client_id"])
  {
    CollectClientsMeaning(rows);
    SelectedBounds(rows);
  }
}
