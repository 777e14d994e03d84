/** The guards of src/operation.rs and of `Client::reset_session`. */
module Operations {
  import opened Wrappers
  import opened Native

  function EnsureUsable(conn: Conn): Result<()> {
    if conn.dead then Err(ConnectionClosed) else Ok(())
  }

  /** Armed from its creation; dropping it armed marks the connection dead. */
  class Operation {
    const client: TdsClient
    var armed: bool

    ghost predicate Live()
      reads this, client
    {
      armed && client.Valid() && client.guarded
    }

    constructor (client: TdsClient)
      requires client.Valid() && !client.guarded && !client.conn.dead
      modifies client`guarded, client`history
      ensures this.client == client && Live() && old(client.history) <= client.history
    {
      this.client := client;
      armed := true;
      new;
      client.Arm();
    }

    /** Disarms the guard; its result, success or error, leaves the dead flag as the driver set it. */
    method Complete()
      requires Live() && (client.conn.torn ==> client.conn.dead)
      modifies this, client`guarded, client`history
      ensures !armed && client.Valid() && !client.guarded && old(client.history) <= client.history
    {
      armed := false;
      client.Disarm();
      Drop();
    }

    /** Armed, it kills the connection; disarmed, it does nothing. */
    method Drop()
      requires armed ==> Live()
      modifies if armed then {client} else {}
      ensures armed ==> client.Valid() && !client.guarded && old(client.history) <= client.history
      ensures client.conn == if armed then old(client.conn).(dead := true) else old(client.conn)
      ensures !armed ==> client.guarded == old(client.guarded) && client.history == old(client.history)
    {
      if armed {
        client.MarkConnectionDead();
      }
    }
  }

  method NewOperation(client: TdsClient) returns (r: Result<Operation>)
    requires client.Valid() && !client.guarded
    modifies client`guarded, client`history
    ensures client.conn.dead ==> r == Err(ConnectionClosed) && client.Valid() && !client.guarded
    ensures !client.conn.dead ==> r.Ok? && fresh(r.value) && r.value.client == client && r.value.Live()
    ensures old(client.history) <= client.history
  {
    if client.conn.dead {
      return Err(ConnectionClosed);
    }
    var operation := new Operation(client);
    r := Ok(operation);
  }

  /** The stricter guard of a reset: anything but a finished reset kills the connection. */
  class SessionReset {
    const inner: TdsClient
    var complete: bool

    constructor (inner: TdsClient)
      requires inner.Valid() && !inner.guarded && !inner.conn.dead
      modifies inner`guarded, inner`history
      ensures this.inner == inner && !complete
      ensures inner.Valid() && inner.guarded && old(inner.history) <= inner.history
    {
      this.inner := inner;
      complete := false;
      new;
      inner.Arm();
    }

    method Drop()
      requires inner.Valid() && inner.guarded && (complete ==> Clean(inner.conn))
      modifies inner
      ensures inner.Valid() && !inner.guarded && old(inner.history) <= inner.history
      ensures inner.conn == if complete then old(inner.conn) else old(inner.conn).(dead := true)
    {
      if !complete {
        inner.MarkConnectionDead();
      } else {
        inner.Disarm();
      }
    }
  }
}
