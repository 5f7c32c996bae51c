/** One collection cycle: `getCMXData` and `getCMXAPData` (cmx-anonymiser.py:126-252),
    which fetch a payload and shape it into rows, and the write-or-skip decisions of
    `getData` (cmx-anonymiser.py:281-298). */
module Collection {

  import opened Base
  import opened Json
  import opened Anonymiser
  import opened Request

  /** One list appended to `response_dict['data']`: the header (a list of strings)
      or the values taken from one record. */
  type Row = seq<Json>

  /** The two telemetry kinds, with what shaping a record of that kind needs. */
  datatype Kind = Clients(sha: Sha256, salt: string) | AccessPoints

  // ---------------------------------------------------------------------------
  // Client rows (cmx-anonymiser.py:140-197)

  const ClientHeader: seq<string> := [
    "hash", "mapHierarchyString", "floorRefId", "length", "width", "x", "y", "unit",
    "currentlyTracked", "confidenceFactor", "currentServerTime", "firstLocatedTime",
    "lastLocatedTime", "maxDetectedRssiApMacAddress", "band", "rssi", "lastHeardInSeconds",
    "networkStatus", "changedOn", "ssId", "band", "apMacAddress", "dot11Status",
    "manufacturer", "detectingControllers", "bytesSent", "bytesReceived"]

  /** Where the values of columns 2 to 27 of a client row come from. */
  const ClientPaths: seq<Path> := [
    [Key("mapInfo"), Key("mapHierarchyString")],
    [Key("mapInfo"), Key("floorRefId")],
    [Key("mapInfo"), Key("floorDimension"), Key("length")],
    [Key("mapInfo"), Key("floorDimension"), Key("width")],
    [Key("mapCoordinate"), Key("x")],
    [Key("mapCoordinate"), Key("y")],
    [Key("mapCoordinate"), Key("unit")],
    [Key("currentlyTracked")],
    [Key("confidenceFactor")],
    [Key("statistics"), Key("currentServerTime")],
    [Key("statistics"), Key("firstLocatedTime")],
    [Key("statistics"), Key("lastLocatedTime")],
    [Key("statistics"), Key("maxDetectedRssi"), Key("apMacAddress")],
    [Key("statistics"), Key("maxDetectedRssi"), Key("band")],
    [Key("statistics"), Key("maxDetectedRssi"), Key("rssi")],
    [Key("statistics"), Key("maxDetectedRssi"), Key("lastHeardInSeconds")],
    [Key("networkStatus")],
    [Key("changedOn")],
    [Key("ssId")],
    [Key("band")],
    [Key("apMacAddress")],
    [Key("dot11Status")],
    [Key("manufacturer")],
    [Key("detectingControllers")],
    [Key("bytesSent")],
    [Key("bytesReceived")]]

  /** `client['macAddress']`, which `deidentifyMac` then encodes: anything but a
      string has no `encode` method. */
  function MacOf(client: Json): Result<string, PyError>
  {
    match Subscript(client, Key("macAddress"))
    case Err(e) => Err(e)
    case Ok(v) => if v.JStr? then Ok(v.s) else Err(AttributeError)
  }

  /** The MAC is read iff the record has a string `macAddress`; a missing field raises
      KeyError (TypeError when the record is not an object) and a non-string one
      AttributeError. */
  lemma MacOfCases(client: Json)
    ensures MacOf(client).Ok? <==>
              client.JObj? && "macAddress" in client.fields && client.fields["macAddress"].JStr?
    ensures MacOf(client).Ok? ==> client.fields["macAddress"] == JStr(MacOf(client).value)
    ensures MacOf(client) == Err(KeyError) <==> client.JObj? && "macAddress" !in client.fields
    ensures MacOf(client) == Err(AttributeError) <==>
              client.JObj? && "macAddress" in client.fields && !client.fields["macAddress"].JStr?
    ensures MacOf(client) == Err(TypeError) <==> !client.JObj?
  {
  }

  /** The row of one client record: the token of its MAC, then the 26 other values
      copied as they are, in header order. */
  function ClientRow(sha: Sha256, salt: string, client: Json): (r: Result<Row, PyError>)
    ensures r.Ok? <==> MacOf(client).Ok? && forall k :: 0 <= k < |ClientPaths| ==> Lookup(client, ClientPaths[k]).Ok?
    ensures r.Ok? ==> |r.value| == |ClientHeader| == 27
    ensures r.Ok? ==> r.value[0] == JStr(DeidentifyMac(sha, salt, MacOf(client).value))
    ensures r.Ok? ==> forall k :: 0 <= k < |ClientPaths| ==> r.value[k + 1] == Lookup(client, ClientPaths[k]).value
    ensures MacOf(client).Err? ==> r == Err(MacOf(client).error)
  {
    match MacOf(client)
    case Err(e) => Err(e)
    case Ok(mac) =>
      match LookupAll(client, ClientPaths)
      case Err(e) => Err(e)
      case Ok(cells) => Ok([JStr(DeidentifyMac(sha, salt, mac))] + cells)
  }

  /** The raw MAC is not copied into column 1: it holds the 64-character token, which
      differs from any MAC of another length. */
  lemma ClientRowHidesMac(sha: Sha256, salt: string, client: Json)
    requires ClientRow(sha, salt, client).Ok?
    requires |MacOf(client).value| != 64
    ensures ClientRow(sha, salt, client).value[0] != JStr(MacOf(client).value)
  {
    var token := DeidentifyMac(sha, salt, MacOf(client).value);
    assert ClientRow(sha, salt, client).value[0] == JStr(token);
    assert |token| == 64;
  }

  /** No other column reads `macAddress`: the subscript chains of columns 2 to 27 all
      start from a different field. */
  lemma ClientPathsSkipMac()
    ensures forall k :: 0 <= k < |ClientPaths| ==> ClientPaths[k] != [] && ClientPaths[k][0] != Key("macAddress")
  {
  }

  // ---------------------------------------------------------------------------
  // Access-point rows (cmx-anonymiser.py:214-249)

  const ApHeader: seq<string> := [
    "radioMacAddress", "name", "x", "y", "unit", "802_11_BChannelNumber",
    "802_11_BTxPowerLevel", "802_11_AChannelNumber", "802_11_ATxPowerLevel", "floorId"]

  /** Where the ten values of a row of an access point with two interfaces come from. */
  const ApPaths: seq<Path> := [
    [Key("radioMacAddress")],
    [Key("name")],
    [Key("mapCoordinates"), Key("x")],
    [Key("mapCoordinates"), Key("y")],
    [Key("mapCoordinates"), Key("unit")],
    [Key("apInterfaces"), Idx(0), Key("channelNumber")],
    [Key("apInterfaces"), Idx(0), Key("txPowerLevel")],
    [Key("apInterfaces"), Idx(1), Key("channelNumber")],
    [Key("apInterfaces"), Idx(1), Key("txPowerLevel")],
    [Key("floorIdString")]]

  /** `len(ap['apInterfaces'])`. When the interfaces form a list, the count is how many
      of `ap['apInterfaces'][i]` exist for i = 0, 1, ...; the first step can fail only
      with KeyError (no such field, or a record that is a list or a string indexed
      by a key raises TypeError instead), and `len()` of a number, boolean or null
      raises TypeError. */
  function InterfaceCount(ap: Json): Result<nat, PyError>
  {
    match Subscript(ap, Key("apInterfaces"))
    case Err(e) => Err(e)
    case Ok(v) => Len(v)
  }

  /** `len(ap['apInterfaces'])` raises only KeyError or TypeError; it succeeds iff
      the field exists and is a list, a string or an object; and when the interfaces
      form a list, the count is how many of `ap['apInterfaces'][i]` exist for
      i = 0, 1, ... */
  lemma InterfaceCountIndices(ap: Json)
    ensures InterfaceCount(ap).Err? ==> InterfaceCount(ap).error == KeyError || InterfaceCount(ap).error == TypeError
    ensures InterfaceCount(ap).Ok? <==>
              ap.JObj? && "apInterfaces" in ap.fields
              && (ap.fields["apInterfaces"].JArr? || ap.fields["apInterfaces"].JStr? || ap.fields["apInterfaces"].JObj?)
    ensures InterfaceCount(ap).Ok? && ap.fields["apInterfaces"].JArr? ==>
              forall i :: 0 <= i ==> (Lookup(ap, [Key("apInterfaces"), Idx(i)]).Ok? <==> i < InterfaceCount(ap).value)
  {
    LookupPair(ap, Key("apInterfaces"));
  }

  /** The row of one access-point record, if it gets one: with two interfaces all ten
      values are copied; with one, the second interface's channel and power are 0;
      with any other number of interfaces there is no row. */
  function ApRow(ap: Json): (r: Result<Option<Row>, PyError>)
    ensures InterfaceCount(ap).Err? ==> r == Err(InterfaceCount(ap).error)
    ensures InterfaceCount(ap).Ok? && InterfaceCount(ap).value != 1 && InterfaceCount(ap).value != 2 ==>
              r == Ok(None)
    ensures r.Ok? && r.value.Some? ==> |r.value.value| == |ApHeader| == 10
    ensures InterfaceCount(ap) == Ok(2) ==>
              (r.Ok? <==> forall k :: 0 <= k < 10 ==> Lookup(ap, ApPaths[k]).Ok?)
              && (r.Ok? ==> r.value.Some? && forall k :: 0 <= k < 10 ==> r.value.value[k] == Lookup(ap, ApPaths[k]).value)
    ensures InterfaceCount(ap) == Ok(1) ==>
              (r.Ok? <==> forall k :: 0 <= k < 10 && k != 7 && k != 8 ==> Lookup(ap, ApPaths[k]).Ok?)
              && (r.Ok? ==> r.value.Some?
                            && (forall k :: 0 <= k < 10 && k != 7 && k != 8 ==> r.value.value[k] == Lookup(ap, ApPaths[k]).value)
                            && r.value.value[7] == JInt(0) && r.value.value[8] == JInt(0))
  {
    match InterfaceCount(ap)
    case Err(e) => Err(e)
    case Ok(n) =>
      if n == 2 then
        match LookupAll(ap, ApPaths)
        case Err(e) => Err(e)
        case Ok(cells) => Ok(Some(cells))
      else if n == 1 then
        var paths := ApPaths[..7] + [ApPaths[9]];
        assert forall k :: 0 <= k < 7 ==> paths[k] == ApPaths[k];
        assert paths[7] == ApPaths[9];
        match LookupAll(ap, paths)
        case Err(e) =>
          assert exists k :: 0 <= k < 8 && Lookup(ap, paths[k]).Err?;
          Err(e)
        case Ok(cells) =>
          assert forall k :: 0 <= k < 7 ==> cells[k] == Lookup(ap, ApPaths[k]).value;
          Ok(Some(cells[..7] + [JInt(0), JInt(0)] + cells[7..]))
      else Ok(None)
  }

  // ---------------------------------------------------------------------------
  // The record loop, shared by both kinds

  function Header(kind: Kind): seq<string>
  {
    match kind
    case Clients(_, _) => ClientHeader
    case AccessPoints => ApHeader
  }

  function HeaderRow(names: seq<string>): (row: Row)
    ensures |row| == |names|
  {
    seq(|names|, i requires 0 <= i < |names| => JStr(names[i]))
  }

  /** What one record contributes: a row, no row, or an exception. */
  function Entry(kind: Kind, record: Json): (r: Result<Option<Row>, PyError>)
    ensures r.Ok? && r.value.Some? ==> |r.value.value| == |Header(kind)|
  {
    match kind
    case Clients(sha, salt) =>
      (match ClientRow(sha, salt, record)
       case Err(e) => Err(e)
       case Ok(row) => Ok(Some(row)))
    case AccessPoints => ApRow(record)
  }

  /** What the loop does with one record, as a function value, so that the lemmas
      about the loop do not depend on how a row is built. */
  type Builder = Json -> Result<Option<Row>, PyError>

  function Build(kind: Kind): Builder
  {
    (record: Json) => Entry(kind, record)
  }

  /** The rows the loop appends for the given records, in order; the first record
      that raises ends the loop with its exception. */
  function Rows(build: Builder, records: seq<Json>): Result<seq<Row>, PyError>
  {
    if records == [] then Ok([])
    else match Rows(build, records[..|records| - 1])
      case Err(e) => Err(e)
      case Ok(rows) =>
        match build(records[|records| - 1])
        case Err(e) => Err(e)
        case Ok(None) => Ok(rows)
        case Ok(Some(row)) => Ok(rows + [row])
  }

  /** Once a record has raised, later records change nothing. */
  lemma {:induction false} RowsErrorPersists(build: Builder, records: seq<Json>, i: nat)
    requires i <= |records|
    requires Rows(build, records[..i]).Err?
    ensures Rows(build, records) == Rows(build, records[..i])
    decreases |records| - i
  {
    if i < |records| {
      assert records[..|records| - 1][..i] == records[..i];
      RowsErrorPersists(build, records[..|records| - 1], i);
    } else {
      assert records[..i] == records;
    }
  }

  /** The loop succeeds iff no record raises; otherwise the exception is that of the
      first record that raises. */
  lemma {:induction false} RowsSucceedIffNoRecordRaises(build: Builder, records: seq<Json>)
    ensures Rows(build, records).Ok? <==> forall i :: 0 <= i < |records| ==> build(records[i]).Ok?
    ensures Rows(build, records).Err? ==>
              exists i :: 0 <= i < |records| && build(records[i]) == Err(Rows(build, records).error)
                          && forall j :: 0 <= j < i ==> build(records[j]).Ok?
  {
    if records != [] {
      var front := records[..|records| - 1];
      assert forall i :: 0 <= i < |front| ==> front[i] == records[i];
      RowsSucceedIffNoRecordRaises(build, front);
    }
  }

  /** Rows keep the order of the records: the rows of a concatenation are the rows of
      the first part followed by those of the second. */
  lemma {:induction false} RowsConcat(build: Builder, a: seq<Json>, b: seq<Json>)
    requires Rows(build, a).Ok? && Rows(build, b).Ok?
    ensures Rows(build, a + b) == Ok(Rows(build, a).value + Rows(build, b).value)
    decreases |b|
  {
    if b == [] {
      assert a + b == a;
      assert Rows(build, a).value + [] == Rows(build, a).value;
    } else {
      var b' := b[..|b| - 1];
      assert (a + b)[..|a + b| - 1] == a + b';
      assert (a + b)[|a + b| - 1] == b[|b| - 1];
      RowsConcat(build, a, b');
      var ra, rb' := Rows(build, a).value, Rows(build, b').value;
      match build(b[|b| - 1]) {
        case Ok(None) =>
        case Ok(Some(row)) =>
          assert ra + rb' + [row] == ra + (rb' + [row]);
      }
    }
  }

  /** A row is in the output iff some record produced it. */
  lemma {:induction false} RowsFromRecords(build: Builder, records: seq<Json>)
    requires Rows(build, records).Ok?
    ensures |Rows(build, records).value| <= |records|
    ensures forall row :: row in Rows(build, records).value <==>
              exists i :: 0 <= i < |records| && build(records[i]) == Ok(Some(row))
  {
    if records != [] {
      var front := records[..|records| - 1];
      assert forall i :: 0 <= i < |front| ==> front[i] == records[i];
      RowsFromRecords(build, front);
    }
  }

  /** When every record produces a row (always for clients; for access points when
      each has one or two interfaces), row i comes from record i. */
  lemma {:induction false} RowsOnePerRecord(build: Builder, records: seq<Json>)
    requires forall i :: 0 <= i < |records| ==> build(records[i]).Ok? && build(records[i]).value.Some?
    ensures Rows(build, records).Ok?
    ensures |Rows(build, records).value| == |records|
    ensures forall i :: 0 <= i < |records| ==> Rows(build, records).value[i] == build(records[i]).value.value
  {
    if records != [] {
      var front := records[..|records| - 1];
      assert forall i :: 0 <= i < |front| ==> front[i] == records[i];
      RowsOnePerRecord(build, front);
    }
  }

  // ---------------------------------------------------------------------------
  // The response dictionary

  /** The defaultdict(list) that getCMXData and getCMXAPData return. */
  datatype ResponseDict = ResponseDict(isError: Option<bool>, statusCode: Option<int>, data: seq<Row>)

  /** `response_dict['isError']` in a boolean context: an entry never written reads
      as the empty list, which is falsy. */
  predicate Flagged(isError: Option<bool>)
  {
    isError == Some(true)
  }

  /** The dictionary for one kind, from what requestCMX handed back. Reading
      `response.status_code` while `response` is still the Session placeholder raises
      AttributeError; a body that is not JSON makes `response.json()` raise
      ValueError. */
  function Dict(kind: Kind, f: FetchResult): Result<ResponseDict, PyError>
  {
    if Flagged(f.isError) then Ok(ResponseDict(f.isError, None, []))
    else match f.response
      case None => Err(AttributeError)
      case Some(resp) =>
        if resp.status != 200 then Ok(ResponseDict(f.isError, Some(resp.status), []))
        else match resp.body
          case None => Err(ValueError)
          case Some(body) =>
            match Records(body)
            case Err(e) => Err(e)
            case Ok(records) =>
              match Dataset(kind, records)
              case Err(e) => Err(e)
              case Ok(data) => Ok(ResponseDict(f.isError, Some(200), data))
  }

  /** `response_dict['data']` after a 200 answer: the header, then the rows. */
  function Dataset(kind: Kind, records: seq<Json>): Result<seq<Row>, PyError>
  {
    match Rows(Build(kind), records)
    case Err(e) => Err(e)
    case Ok(rows) => Ok([HeaderRow(Header(kind))] + rows)
  }

  /** The record loop of getCMXData and getCMXAPData: the header first, then one
      append per record that yields a row. */
  method AppendRows(kind: Kind, records: seq<Json>) returns (r: Result<seq<Row>, PyError>)
    ensures r == Dataset(kind, records)
  {
    var header := HeaderRow(Header(kind));
    var build := Build(kind);
    var rows: seq<Row> := [];
    var i := 0;
    assert records[..0] == [];
    while i < |records|
      invariant 0 <= i <= |records|
      invariant Rows(build, records[..i]) == Ok(rows)
    {
      assert records[..i + 1][..i] == records[..i];
      assert records[..i + 1][i] == records[i];
      var entry := build(records[i]);
      match entry {
        case Err(e) =>
          RowsErrorPersists(build, records, i + 1);
          return Err(e);
        case Ok(None) =>
        case Ok(Some(row)) =>
          rows := rows + [row];
      }
      i := i + 1;
    }
    assert records[..i] == records;
    r := Ok([header] + rows);
  }

  /** getCMXData (kind Clients) and getCMXAPData (kind AccessPoints). */
  method GetCMXData(kind: Kind, outcomes: seq<Attempt>, maxRetries: int) returns (r: Result<ResponseDict, PyError>)
    requires maxRetries <= |outcomes|
    ensures r == Dict(kind, Fetch(outcomes, maxRetries))
  {
    var f := RequestCMX(outcomes, maxRetries);
    if Flagged(f.isError) {
      return Ok(ResponseDict(f.isError, None, []));
    }
    if f.response.None? {
      return Err(AttributeError);
    }
    var resp := f.response.value;
    if resp.status != 200 {
      return Ok(ResponseDict(f.isError, Some(resp.status), []));
    }
    if resp.body.None? {
      return Err(ValueError);
    }
    var records := Records(resp.body.value);
    if records.Err? {
      return Err(records.error);
    }
    var data := AppendRows(kind, records.value);
    if data.Err? {
      return Err(data.error);
    }
    r := Ok(ResponseDict(f.isError, Some(200), data.value));
  }

  /** What a dictionary holds: rows only after a 200 answer, and then the header
      first; nothing at all (not even the header) otherwise; every row as wide as
      the header. */
  lemma DictShape(kind: Kind, f: FetchResult)
    requires Dict(kind, f).Ok?
    ensures Dict(kind, f).value.isError == f.isError
    ensures Dict(kind, f).value.data != [] <==> Dict(kind, f).value.statusCode == Some(200)
    ensures Dict(kind, f).value.data != [] ==> Dict(kind, f).value.data[0] == HeaderRow(Header(kind))
    ensures forall row :: row in Dict(kind, f).value.data ==> |row| == |Header(kind)|
    ensures Flagged(f.isError) ==> Dict(kind, f).value.statusCode == None
  {
    if !Flagged(f.isError) && f.response.value.status == 200 {
      var records := Records(f.response.value.body.value).value;
      RowsFromRecords(Build(kind), records);
      assert Dict(kind, f).value.data == [HeaderRow(Header(kind))] + Rows(Build(kind), records).value;
      forall row | row in Dict(kind, f).value.data ensures |row| == |Header(kind)| {
        if row != HeaderRow(Header(kind)) {
          var i :| 0 <= i < |records| && Build(kind)(records[i]) == Ok(Some(row));
          assert Entry(kind, records[i]) == Ok(Some(row));
        }
      }
    }
  }

  /** After a 200 answer, the data is the dataset of the decoded records. */
  lemma DictData(kind: Kind, f: FetchResult)
    requires Dict(kind, f).Ok?
    requires Dict(kind, f).value.statusCode == Some(200)
    ensures f.response.Some? && f.response.value.body.Some?
    ensures Records(f.response.value.body.value).Ok?
    ensures Dict(kind, f).value.data == Dataset(kind, Records(f.response.value.body.value).value).value
  {
  }

  /** A dataset that succeeds is the header followed by the rows of the loop. */
  lemma DatasetRows(kind: Kind, records: seq<Json>)
    requires Dataset(kind, records).Ok?
    ensures Rows(Build(kind), records).Ok?
    ensures Dataset(kind, records).value == [HeaderRow(Header(kind))] + Rows(Build(kind), records).value
  {
  }

  /** Behind a header, row i sits at position i + 1. */
  lemma HeaderThenRows(data: seq<Row>, header: Row, rows: seq<Row>)
    requires data == [header] + rows
    ensures |data| == |rows| + 1
    ensures forall i :: 0 <= i < |rows| ==> data[i + 1] == rows[i]
  {
  }

  /** A client record loop that succeeds yields one row per record, in order: every
      client record that does not raise gets a row. */
  lemma ClientRecordRows(sha: Sha256, salt: string, records: seq<Json>)
    requires Rows(Build(Clients(sha, salt)), records).Ok?
    ensures |Rows(Build(Clients(sha, salt)), records).value| == |records|
    ensures forall i :: 0 <= i < |records| ==>
              ClientRow(sha, salt, records[i]) == Ok(Rows(Build(Clients(sha, salt)), records).value[i])
  {
    var build := Build(Clients(sha, salt));
    RowsSucceedIffNoRecordRaises(build, records);
    forall i | 0 <= i < |records| ensures build(records[i]).Ok? && build(records[i]).value.Some? {
      assert build(records[i]) == Entry(Clients(sha, salt), records[i]);
    }
    RowsOnePerRecord(build, records);
  }

  /** The data rows of a successful client fetch are, one for one and in order, the
      rows of the decoded records: column 1 the token, columns 2 to 27 copied. */
  lemma ClientDictRows(sha: Sha256, salt: string, f: FetchResult)
    requires Dict(Clients(sha, salt), f).Ok?
    requires Dict(Clients(sha, salt), f).value.statusCode == Some(200)
    ensures var records := Records(f.response.value.body.value).value;
            var data := Dict(Clients(sha, salt), f).value.data;
            |data| == |records| + 1
            && forall i :: 0 <= i < |records| ==> ClientRow(sha, salt, records[i]) == Ok(data[i + 1])
  {
    var kind := Clients(sha, salt);
    var records := Records(f.response.value.body.value).value;
    DictData(kind, f);
    DatasetRows(kind, records);
    ClientRecordRows(sha, salt, records);
    HeaderThenRows(Dict(kind, f).value.data, HeaderRow(Header(kind)), Rows(Build(kind), records).value);
  }

  /** A client fetch that ended in a 200 answer fails iff some record lacks a field
      (or its MAC is not a string): a malformed record is not skipped. */
  lemma ClientBatchAborts(sha: Sha256, salt: string, f: FetchResult, records: seq<Json>)
    requires !Flagged(f.isError) && f.response.Some? && f.response.value.status == 200
    requires f.response.value.body == Some(JArr(records))
    ensures Dict(Clients(sha, salt), f).Err? <==> exists i :: 0 <= i < |records| && ClientRow(sha, salt, records[i]).Err?
  {
    var kind := Clients(sha, salt);
    var build := Build(kind);
    RowsSucceedIffNoRecordRaises(build, records);
    assert Dict(kind, f).Err? <==> Rows(build, records).Err?;
    forall i | 0 <= i < |records| ensures build(records[i]).Ok? <==> ClientRow(sha, salt, records[i]).Ok? {
      assert build(records[i]) == Entry(kind, records[i]);
    }
  }

  /** With no attempt allowed (`retry` at most 0), `response` is still the Session
      placeholder and the flag was never written, so reading the status code raises. */
  lemma NoAttemptsRaise(kind: Kind, outcomes: seq<Attempt>, maxRetries: int)
    requires maxRetries <= 0
    ensures Dict(kind, Fetch(outcomes, maxRetries)) == Err(AttributeError)
  {
  }

  /** When every allowed attempt gets a non-200 answer, the flag is never written, so
      the dictionary holds that status code and no data at all. */
  lemma OnlyNon200Answers(kind: Kind, outcomes: seq<Attempt>, maxRetries: int)
    requires maxRetries <= |outcomes| && 0 < maxRetries
    requires forall i :: 0 <= i < maxRetries ==> outcomes[i].Answered? && outcomes[i].response.status != 200
    ensures Dict(kind, Fetch(outcomes, maxRetries)).Ok?
    ensures Dict(kind, Fetch(outcomes, maxRetries)).value.isError == None
    ensures Dict(kind, Fetch(outcomes, maxRetries)).value.data == []
    ensures Dict(kind, Fetch(outcomes, maxRetries)).value.statusCode == Some(outcomes[maxRetries - 1].response.status)
  {
    FetchErrorFlag(outcomes, maxRetries);
    var n := AttemptsUsed(outcomes, maxRetries);
    assert n == maxRetries;
    LastResponseCases(outcomes[..n]);
  }

  // ---------------------------------------------------------------------------
  // getData (cmx-anonymiser.py:281-298)

  /** A call of writeFile: the file name prefix and the rows written. */
  datatype FileWrite = FileWrite(fileName: string, data: seq<Row>)

  /** What one cycle did: the files it asked writeFile for, in order, and the
      exception that ended it early, if any (it propagates out of the scheduler). */
  datatype Cycle = Cycle(writes: seq<FileWrite>, crash: Option<PyError>)

  /** getData writes a kind's file exactly when its `isError` reads as false. */
  predicate WritesFile(d: ResponseDict)
  {
    !Flagged(d.isError)
  }

  /** The cycle, from the two dictionaries: access points first, then clients, whose
      fetch never happens when the access-point step raised. */
  function CycleOf(ap: Result<ResponseDict, PyError>, user: Result<ResponseDict, PyError>): Cycle
  {
    match ap
    case Err(e) => Cycle([], Some(e))
    case Ok(a) =>
      var first := if WritesFile(a) then [FileWrite("ap_data", a.data)] else [];
      match user
      case Err(e) => Cycle(first, Some(e))
      case Ok(u) => Cycle(first + (if WritesFile(u) then [FileWrite("user_data", u.data)] else []), None)
  }

  method GetData(apOutcomes: seq<Attempt>, userOutcomes: seq<Attempt>, maxRetries: int, sha: Sha256, salt: string)
    returns (c: Cycle)
    requires maxRetries <= |apOutcomes| && maxRetries <= |userOutcomes|
    ensures c == CycleOf(Dict(AccessPoints, Fetch(apOutcomes, maxRetries)),
                         Dict(Clients(sha, salt), Fetch(userOutcomes, maxRetries)))
  {
    var writes: seq<FileWrite> := [];
    var apData := GetCMXData(AccessPoints, apOutcomes, maxRetries);
    if apData.Err? {
      return Cycle(writes, Some(apData.error));
    }
    if WritesFile(apData.value) {
      writes := writes + [FileWrite("ap_data", apData.value.data)];
    }
    var userData := GetCMXData(Clients(sha, salt), userOutcomes, maxRetries);
    if userData.Err? {
      return Cycle(writes, Some(userData.error));
    }
    if WritesFile(userData.value) {
      writes := writes + [FileWrite("user_data", userData.value.data)];
    }
    c := Cycle(writes, None);
  }

  /** Each kind's file is written iff its step, and every step before it, did not
      raise and its flag reads as false; the access-point file comes first; the
      cycle ends by an exception iff a step it reached raised. */
  lemma CycleWrites(ap: Result<ResponseDict, PyError>, user: Result<ResponseDict, PyError>)
    ensures var c := CycleOf(ap, user);
            (exists w :: w in c.writes && w.fileName == "ap_data") <==> ap.Ok? && WritesFile(ap.value)
    ensures var c := CycleOf(ap, user);
            (exists w :: w in c.writes && w.fileName == "user_data") <==>
              ap.Ok? && user.Ok? && WritesFile(user.value)
    ensures var c := CycleOf(ap, user);
            c.crash.Some? <==> ap.Err? || user.Err?
    ensures var c := CycleOf(ap, user);
            forall i :: 0 <= i < |c.writes| ==>
              (c.writes[i].fileName == "ap_data" ==> i == 0 && c.writes[i].data == ap.value.data)
              && (c.writes[i].fileName == "user_data" ==> i == |c.writes| - 1 && c.writes[i].data == user.value.data)
  {
  }
}
