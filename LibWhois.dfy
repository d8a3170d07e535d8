/** The stateful part of libwhois.py: the `Whois` transport, the `is_ip`
    loop and the `ASNWhois` client with its query state and result cache.
    The socket is replaced by a log: `connected` says whether a connection
    is open, `connects` counts the connections opened, `sent` holds every
    string written, and `read` takes the chunks the server returns. */
module LibWhois {
  import opened Wrappers
  import opened PyText
  import opened Protocol

  // ---------------------------------------------------------------------
  // is_ip
  // ---------------------------------------------------------------------

  /** `is_ip(data)`: the loop over the four parts with its early returns,
      including the `c < 256` test on the position for octet 0. */
  method IsIp(data: string) returns (ok: bool)
    ensures ok == ValidAddress(data)
  {
    var elements := Split(Strip(data), '.');
    if |elements| != 4 {
      return false;
    }
    ValidAddressParts(data, elements);
    for c := 0 to 4
      invariant forall j :: 0 <= j < c ==> OctetOk(j, elements[j])
    {
      var v := ParseInt(elements[c]);
      if v.None? {
        return false;
      }
      if !((c > 0 && v.value >= 0 && v.value < 256) || (c == 0 && v.value >= 1 && c < 256)) {
        return false;
      }
    }
    return true;
  }

  // ---------------------------------------------------------------------
  // Whois: the transport
  // ---------------------------------------------------------------------

  /** What `read` accumulates from successive `recv` calls: every chunk up
      to the first empty one, which is the server closing the connection.
      Running out of chunks also ends the stream. */
  function Received(chunks: seq<string>): (r: string)
    ensures r == "" <==> chunks == [] || chunks[0] == ""
    ensures chunks != [] ==> chunks[0] <= r
  {
    if chunks == [] || chunks[0] == "" then "" else chunks[0] + Received(chunks[1..])
  }

  /** Without an early close, the buffer is all chunks concatenated. */
  lemma {:induction false} ReceivedAll(chunks: seq<string>)
    requires forall i :: 0 <= i < |chunks| ==> chunks[i] != ""
    ensures Received(chunks) == Concat(chunks)
  {
    if chunks != [] {
      ReceivedAll(chunks[1..]);
    }
  }

  /** Nothing after the empty chunk reaches the buffer. */
  lemma {:induction false} ReceivedStopsAtClose(chunks: seq<string>, rest: seq<string>)
    requires forall i :: 0 <= i < |chunks| ==> chunks[i] != ""
    ensures Received(chunks + [""] + rest) == Concat(chunks)
  {
    if chunks == [] {
      assert ([] + [""] + rest)[0] == "";
    } else {
      assert (chunks + [""] + rest)[1..] == chunks[1..] + [""] + rest;
      ReceivedStopsAtClose(chunks[1..], rest);
    }
  }

  class Whois {
    const address: string
    const port: int
    const timeout: int
    /** An open `_connection`. */
    var connected: bool
    /** The number of connections opened so far. */
    var connects: nat
    /** Every string handed to the socket, in order. */
    var sent: seq<string>
    var buffer: string

    constructor (address: string, port: int, timeout: int)
      ensures this.address == address && this.port == port && this.timeout == timeout
      ensures !connected && connects == 0 && sent == [] && buffer == ""
    {
      this.address := address;
      this.port := port;
      this.timeout := timeout;
      connected := false;
      connects := 0;
      sent := [];
      buffer := "";
    }

    /** `connect`: opens a connection to `(address, port)`. */
    method Connect()
      modifies this
      ensures connected && connects == old(connects) + 1
      ensures sent == old(sent) && buffer == old(buffer)
    {
      connected := true;
      connects := connects + 1;
    }

    /** `send(query)`: writes the query and a line feed. */
    method Send(query: string)
      requires connected
      modifies this
      ensures sent == old(sent) + [Frame(query)]
      ensures connected && connects == old(connects) && buffer == old(buffer)
    {
      sent := sent + [query + "\n"];
    }

    /** `_connection.close()`. */
    method Close()
      modifies this
      ensures !connected && connects == old(connects) && sent == old(sent) && buffer == old(buffer)
    {
      connected := false;
    }

    /** `read`: empties the buffer, appends every chunk until an empty one
        arrives, then closes the connection. */
    method Read(chunks: seq<string>)
      requires connected
      modifies this
      ensures buffer == Received(chunks)
      ensures !connected && connects == old(connects) && sent == old(sent)
    {
      buffer := "";
      var i := 0;
      while i < |chunks| && chunks[i] != ""
        invariant 0 <= i <= |chunks|
        invariant buffer + Received(chunks[i..]) == Received(chunks)
        invariant connected && connects == old(connects) && sent == old(sent)
      {
        assert chunks[i..][1..] == chunks[i + 1..];
        assert buffer + (chunks[i] + Received(chunks[i + 1..]))
               == (buffer + chunks[i]) + Received(chunks[i + 1..]);
        buffer := buffer + chunks[i];
        i := i + 1;
      }
      Close();
    }
  }

  // ---------------------------------------------------------------------
  // ASNWhois: query state, request and result cache
  // ---------------------------------------------------------------------

  const DefaultAddress := "asn.shadowserver.org"
  const DefaultPort := 43
  const DefaultTimeout := 30

  /** A value assigned to the `peers` property: a bool or anything else. */
  datatype PeersArg = Flag(b: bool) | NotBool

  /** `_multiple` after `_perform_query` on `q`: set for a non-empty string
      or list, before the query is validated, untouched otherwise. */
  function MultipleAfter(q: Query, multiple: bool): (r: bool)
    ensures IsEmptyQuery(q) || q.Other? ==> r == multiple
    ensures !IsEmptyQuery(q) && q.Str? ==> !r
    ensures !IsEmptyQuery(q) && q.Lst? ==> r
  {
    if IsEmptyQuery(q) then multiple
    else if q.Str? then false
    else if q.Lst? then true
    else multiple
  }

  /** The parsing mode `get_result` uses after a successful query. */
  function ModeOf(q: Query, peers: bool): Mode {
    Mode(q.Lst?, peers, if q.Str? then q.s else "")
  }

  /** `ASNWhois()`: a client for the Shadowserver server on port 43 with a
      30-second timeout, with nothing queried yet. */
  method DefaultClient() returns (c: ASNWhois)
    ensures c.conn.address == "asn.shadowserver.org" && c.conn.port == 43 && c.conn.timeout == 30
    ensures c.query == Str("") && c.result == map[] && !c.peers
  {
    c := new ASNWhois();
  }

  class ASNWhois {
    /** The transport `ASNWhois` inherits from `Whois`. */
    const conn: Whois
    var query: Query
    var result: map<string, ASNRecord>
    var peers: bool
    var multiple: bool
    var baseIdx: nat

    /** `ASNWhois(address="asn.shadowserver.org", port=43, timeout=30)`. */
    constructor (address: string := DefaultAddress, port: int := DefaultPort, timeout: int := DefaultTimeout)
      ensures fresh(conn)
      ensures conn.address == address && conn.port == port && conn.timeout == timeout
      ensures !conn.connected && conn.connects == 0 && conn.sent == [] && conn.buffer == ""
      ensures query == Str("") && result == map[] && !peers && !multiple && baseIdx == 0
    {
      conn := new Whois(address, port, timeout);
      query := Str("");
      result := map[];
      peers := false;
      multiple := false;
      baseIdx := 0;
    }

    /** Assigning `query`: stored as given, the cache is dropped. */
    method SetQuery(q: Query)
      modifies this
      ensures query == q && result == map[]
      ensures peers == old(peers) && multiple == old(multiple) && baseIdx == old(baseIdx)
    {
      query := q;
      result := map[];
    }

    method GetQuery() returns (q: Query)
      ensures q == query
    {
      q := query;
    }

    /** Assigning `peers`: a non-bool raises and changes nothing; a bool is
        stored and drops the cache. */
    method SetPeers(v: PeersArg) returns (err: Option<Error>)
      modifies this
      ensures v.NotBool? ==> err == Some(PeersNotBool) && peers == old(peers) && result == old(result)
      ensures v.Flag? ==> err == None && peers == v.b && result == map[]
      ensures query == old(query) && multiple == old(multiple) && baseIdx == old(baseIdx)
    {
      if v.NotBool? {
        return Some(PeersNotBool);
      }
      result := map[];
      peers := v.b;
      return None;
    }

    method GetPeers() returns (p: bool)
      ensures p == peers
    {
      p := peers;
    }

    /** Assigning `result` always raises. */
    method SetResult(vals: map<string, ASNRecord>) returns (err: Error)
      ensures err == ReadOnlyResult
    {
      err := ReadOnlyResult;
    }

    /** `_query_single`: validate, connect, send one line, read. */
    method QuerySingle(chunks: seq<string>) returns (err: Option<Error>)
      requires query.Str? && query.s != ""
      modifies conn
      ensures var d := Plan(query, peers);
        && err == d.failure
        && conn.sent == old(conn.sent) + d.sent
        && conn.connects == old(conn.connects) + (if d.connected then 1 else 0)
        && conn.connected == (old(conn.connected) && !d.connected)
        && conn.buffer == (if d.failure.None? then Received(chunks) else old(conn.buffer))
    {
      var ok := IsIp(query.s);
      if !ok {
        return Some(NotIPv4(query.s));
      }
      conn.Connect();
      if peers {
        conn.Send("peer" + " " + query.s);
      } else {
        conn.Send("origin" + " " + query.s);
      }
      conn.Read(chunks);
      return None;
    }

    /** The loop of `_query_multiple`: sends each address in turn and stops
        at the first one `is_ip` rejects, returning its position. */
    method SendAddresses(qs: seq<string>) returns (i: nat)
      requires conn.connected
      modifies conn
      ensures i == FirstInvalid(qs)
      ensures conn.sent == old(conn.sent) + Frames(qs[..i])
      ensures conn.connected && conn.connects == old(conn.connects) && conn.buffer == old(conn.buffer)
    {
      i := 0;
      while i < |qs|
        invariant i <= FirstInvalid(qs)
        invariant conn.sent == old(conn.sent) + Frames(qs[..i])
        invariant conn.connected && conn.connects == old(conn.connects) && conn.buffer == old(conn.buffer)
      {
        var ok := IsIp(qs[i]);
        if !ok {
          return;
        }
        assert qs[..i + 1] == qs[..i] + [qs[i]];
        FramesAppend(qs[..i], [qs[i]]);
        conn.Send(qs[i]);
        i := i + 1;
      }
    }

    /** The opening of `_query_multiple`: connect and send the begin line
        of the mode. */
    method Begin()
      modifies conn
      ensures conn.connected && conn.connects == old(conn.connects) + 1
      ensures conn.sent == old(conn.sent) + [Frame(BeginLine(peers))]
      ensures conn.buffer == old(conn.buffer)
    {
      conn.Connect();
      if peers {
        conn.Send("begin peer");
      } else {
        conn.Send("begin origin");
      }
    }

    /** `_query_multiple`: connect, send the begin line, then the addresses
        up to the first that fails `is_ip` (close and raise), then "end",
        then read. */
    method QueryMultiple(chunks: seq<string>) returns (err: Option<Error>)
      requires query.Lst? && query.items != []
      modifies conn
      ensures var qs := query.items;
        var i := FirstInvalid(qs);
        var prefix := [Frame(BeginLine(peers))] + Frames(qs[..i]);
        && conn.connects == old(conn.connects) + 1
        && !conn.connected
        && (i < |qs| ==> err == Some(NotIPv4(qs[i])) && conn.sent == old(conn.sent) + prefix
                         && conn.buffer == old(conn.buffer))
        && (i == |qs| ==> err == None && conn.sent == old(conn.sent) + prefix + [Frame(EndLine)]
                          && conn.buffer == Received(chunks))
    {
      var qs := query.items;
      Begin();
      ghost var begun := conn.sent;
      var i := SendAddresses(qs);
      ghost var addresses := Frames(qs[..i]);
      assert conn.sent == begun + addresses;
      ghost var prefix := [Frame(BeginLine(peers))] + addresses;
      assert begun + addresses == old(conn.sent) + prefix;
      if i < |qs| {
        conn.Close();
        return Some(NotIPv4(qs[i]));
      }
      conn.Send("end");
      assert conn.sent == old(conn.sent) + prefix + [Frame(EndLine)];
      conn.Read(chunks);
      return None;
    }

    /** `_perform_query`: reject an empty query or one that is neither a
        string nor a list, otherwise set `_multiple` and dispatch. */
    method PerformQuery(chunks: seq<string>) returns (err: Option<Error>)
      modifies this, conn
      ensures var d := Plan(old(query), old(peers));
        && err == d.failure
        && conn.sent == old(conn.sent) + d.sent
        && conn.connects == old(conn.connects) + (if d.connected then 1 else 0)
        && conn.connected == (old(conn.connected) && !d.connected)
        && conn.buffer == (if d.failure.None? then Received(chunks) else old(conn.buffer))
      ensures multiple == MultipleAfter(old(query), old(multiple))
      ensures query == old(query) && peers == old(peers) && result == old(result) && baseIdx == old(baseIdx)
    {
      if IsEmptyQuery(query) {
        return Some(EmptyQuery);
      }
      match query {
        case Str(_) =>
          multiple := false;
          err := QuerySingle(chunks);
        case Lst(qs) =>
          multiple := true;
          PlanBatch(qs, peers);
          ghost var d := Plan(query, peers);
          ghost var i := FirstInvalid(qs);
          assert d.connected && (d.failure.None? <==> i == |qs|);
          err := QueryMultiple(chunks);
          assert err == d.failure && conn.sent == old(conn.sent) + d.sent;
        case Other(_) =>
          return Some(NotStringOrList);
      }
    }

    /** `get_result`: a non-empty cached dict is returned without any I/O;
        otherwise the query is performed and the reply parsed line by line
        into a fresh dict, which becomes the cache even when a line raises
        part-way. */
    method GetResult(chunks: seq<string>) returns (r: Result<map<string, ASNRecord>, Error>)
      modifies this, conn
      ensures old(result) != map[] ==>
        r == Success(old(result)) && result == old(result)
        && query == old(query) && peers == old(peers)
        && multiple == old(multiple) && baseIdx == old(baseIdx)
        && conn.sent == old(conn.sent) && conn.connects == old(conn.connects)
        && conn.connected == old(conn.connected) && conn.buffer == old(conn.buffer)
      ensures old(result) == map[] ==>
        var d := Plan(old(query), old(peers));
        && query == old(query) && peers == old(peers)
        && conn.sent == old(conn.sent) + d.sent
        && conn.connects == old(conn.connects) + (if d.connected then 1 else 0)
        && conn.connected == (old(conn.connected) && !d.connected)
        && multiple == MultipleAfter(old(query), old(multiple))
        && (d.failure.Some? ==>
              r == Failure(d.failure.value) && result == old(result)
              && baseIdx == old(baseIdx) && conn.buffer == old(conn.buffer))
        && (d.failure.None? ==>
              var m := ModeOf(old(query), old(peers));
              var st := ParseBuffer(Received(chunks), m);
              && conn.buffer == Received(chunks)
              && baseIdx == BaseIdx(m)
              && result == st.entries
              && r == (if st.failure.None? then Success(st.entries) else Failure(st.failure.value)))
    {
      if result != map[] {
        return Success(result);
      }
      var err := PerformQuery(chunks);
      if err.Some? {
        return Failure(err.value);
      }
      baseIdx := 0;
      if multiple {
        baseIdx := baseIdx + 1;
      }
      if peers {
        baseIdx := baseIdx + 1;
      }
      var m := Mode(multiple, peers, if query.Str? then query.s else "");
      assert m == ModeOf(query, peers);
      var failure := ParseReply(m);
      if failure.Some? {
        return Failure(failure.value);
      }
      return Success(result);
    }

    /** Two reads of `result` after the cache was dropped: a non-empty
        dict is served from the cache the second time, with no second
        connection, while an empty one is not cached, so the second read
        queries the server again. */
    method GetResultTwice(first: seq<string>, second: seq<string>)
      returns (r1: Result<map<string, ASNRecord>, Error>, r2: Result<map<string, ASNRecord>, Error>)
      requires result == map[]
      modifies this, conn
      ensures r1.Success? && r1.value != map[] ==>
        r2 == r1 && conn.connects == old(conn.connects) + 1
      ensures r1 == Success(map[]) ==> conn.connects == old(conn.connects) + 2
    {
      r1 := GetResult(first);
      r2 := GetResult(second);
    }

    /** The loop of `get_result`: a fresh dict, filled line by line from
        `buffer`, until a line raises. */
    method ParseReply(m: Mode) returns (failure: Option<Error>)
      modifies this
      ensures result == ParseBuffer(conn.buffer, m).entries
      ensures failure == ParseBuffer(conn.buffer, m).failure
      ensures query == old(query) && peers == old(peers) && multiple == old(multiple) && baseIdx == old(baseIdx)
    {
      result := map[];
      var lines := Split(conn.buffer, '\n');
      for i := 0 to |lines|
        invariant Fold(Outcomes(lines[..i], m), map[]) == ParseState(result, None)
        invariant query == old(query) && peers == old(peers) && multiple == old(multiple) && baseIdx == old(baseIdx)
      {
        var o := ParseLine(lines[i], m);
        FoldLinesSnoc(lines, i, m);
        match o {
          case Skip =>
          case Entry(k, rec) =>
            result := result[k := rec];
          case Arity(n) =>
            FoldLinesStopped(lines, i + 1, m);
            return Some(RecordArity(n));
        }
      }
      assert lines[..|lines|] == lines;
      return None;
    }
  }
}
