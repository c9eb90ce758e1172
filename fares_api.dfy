/**
 * The fare endpoints of the web console's server (web/WebServer.java,
 * FaresHandler): listing and reading fares, adding one fare or a batch,
 * replacing a fare and deleting one, all against the fare registry.
 *
 * A request body is the map Gson decodes: JSON numbers are doubles, and a
 * key mapped to null reads like a missing key. The URL path comes in as a
 * string. Status codes and the replies' fields are kept; the HTTP exchange,
 * JSON encoding and the text of formatted messages are not.
 */
module FaresApi {
  import opened Wrappers
  import opened Text
  import opened FareData
  import opened Network
  import RouteGraph

  // ---------------- request bodies ----------------

  /** A JSON value as Gson's Map<String, Object> decoding yields it. */
  datatype Json = JNull | JBool(b: bool) | JNum(n: real) | JStr(s: string)
                | JList(items: seq<Json>) | JObj(fields: map<string, Json>)

  type Body = map<string, Json>

  /** body.get(k): null when the key is absent. */
  function Field(body: Body, k: string): Json
  {
    if k in body then body[k] else JNull
  }

  /**
   * Number.intValue() of a decoded number: the double is truncated toward
   * zero and saturates at the bounds of a Java int.
   */
  function IntValue(x: real): (i: int)
    ensures IntMin <= i <= IntMax
    ensures IntMin as real <= x <= IntMax as real && x >= 0.0 ==> i as real <= x < i as real + 1.0
    ensures IntMin as real <= x <= IntMax as real && x < 0.0 ==> i as real - 1.0 < x <= i as real
    ensures IntMin <= x.Floor <= IntMax && x == x.Floor as real ==> i == x.Floor
  {
    var t := if x >= 0.0 then x.Floor else -((-x).Floor);
    if t < IntMin then IntMin else if t > IntMax then IntMax else t
  }

  /** The keys a price is read from, in order of preference. */
  const PriceKeys: seq<string> := ["cost_regular", "cost", "price"]

  /**
   * The price fields' precedence: the value of the first key whose value is
   * a number, or None when none is.
   */
  function FirstNumber(body: Body, keys: seq<string>): (r: Option<int>)
    ensures r.None? <==> forall i :: 0 <= i < |keys| ==> !Field(body, keys[i]).JNum?
    ensures r.Some? ==> exists i :: 0 <= i < |keys| && Field(body, keys[i]).JNum?
                                    && r.value == IntValue(Field(body, keys[i]).n)
                                    && forall j :: 0 <= j < i ==> !Field(body, keys[j]).JNum?
    decreases |keys|
  {
    if keys == [] then None
    else if Field(body, keys[0]).JNum? then Some(IntValue(Field(body, keys[0]).n))
    else
      var r := FirstNumber(body, keys[1..]);
      assert forall i :: 1 <= i < |keys| ==> keys[i] == keys[1..][i - 1];
      r
  }

  /** (String) body.get(k): null, a string, or a failed cast. */
  datatype Cast = NullRef | Text(s: string) | BadCast

  function CastString(v: Json): Cast
  {
    match v
    case JNull => NullRef
    case JStr(s) => Text(s)
    case _ => BadCast
  }

  /** A cast value that is neither null nor empty. */
  predicate Given(c: Cast)
  {
    c.Text? && c.s != ""
  }

  /** An endpoint read from `key`, falling back to `fallback` when that is null or empty. */
  function EndpointField(body: Body, key: string, fallback: string): Cast
  {
    var first := CastString(Field(body, key));
    if first.BadCast? || Given(first) then first else CastString(Field(body, fallback))
  }

  // ---------------- replies ----------------

  /** One row of a fare listing: the stored price under all four price names. */
  datatype FareRow = FareRow(from: string, to: string, cost: int, costRegular: int, costExpress: int, price: int)

  function RowOf(f: Fare): FareRow
  {
    FareRow(f.from, f.to, f.price, f.price, f.price, f.price)
  }

  /** Why one entry of a batch was not added. */
  datatype EntryError = InvalidEntry(entry: Body) | AddFailed(from: string, to: string)

  /**
   * What a fare endpoint answers: an error object (ok=false), one of the
   * success objects, or the 500 the handler sends when an exception (here
   * a failed cast) escapes.
   */
  datatype Reply =
    | Refused(status: int, error: string)
    | Added
    | BulkDone(success: nat, failed: nat, errors: seq<EntryError>)
    | Updated
    | Deleted
    | OneFare(row: FareRow)
    | FareRows(rows: seq<FareRow>)
    | Crashed

  function Status(r: Reply): int
  {
    match r
    case Refused(status, _) => status
    case Added => 201
    case BulkDone(_, _, _) => 201
    case Updated => 200
    case Deleted => 200
    case OneFare(_) => 200
    case FareRows(_) => 200
    case Crashed => 500
  }

  const MissingPrice := "Missing price field: cost_regular, cost, or price required"
  const MissingEndpoints := "Missing required fields: from, to"
  const NotPositive := "Price must be positive"
  const AddRefused := "Failed to add fare (stations may not exist or fare already exists)"
  const BadBulk := "Invalid bulk fare format. Use {segments: [...], cost_regular: X} or {fares: [...]}"
  const NotFound := "Fare not found"
  const UpdateFailed := "Failed to update fare"

  /** A reply together with the fare table it leaves behind. */
  datatype Outcome = Outcome(reply: Reply, fares: map<string, Fare>)

  // ---------------- single fare checks ----------------

  /** The fare a request asks for, or the reply that turns it away first. */
  datatype Checked = Accept(fare: Fare) | Reject(reply: Reply)

  /**
   * The checks of handlePostFare and handlePutFare once the endpoints are
   * read: a failed cast, then a missing price, then a missing endpoint, then
   * a price that is not positive. Only a valid fare gets through.
   */
  function CheckFare(from: Cast, to: Cast, price: Option<int>): (r: Checked)
    ensures r.Accept? <==> Given(from) && Given(to) && price.Some? && price.value > 0
    ensures r.Accept? ==> r.fare == Fare(from.s, to.s, price.value) && r.fare.IsValid()
    ensures r == Reject(Crashed) <==> from.BadCast? || to.BadCast?
    ensures r.Reject? ==> r.reply.Crashed? || (r.reply.Refused? && r.reply.status == 400)
    ensures !from.BadCast? && !to.BadCast? && price.None? ==> r == Reject(Refused(400, MissingPrice))
    ensures !from.BadCast? && !to.BadCast? && price.Some? && !(Given(from) && Given(to)) ==> r == Reject(Refused(400, MissingEndpoints))
    ensures Given(from) && Given(to) && price.Some? && price.value <= 0 ==> r == Reject(Refused(400, NotPositive))
  {
    if from.BadCast? || to.BadCast? then Reject(Crashed)
    else if price.None? then Reject(Refused(400, MissingPrice))
    else if !Given(from) || !Given(to) then Reject(Refused(400, MissingEndpoints))
    else if price.value <= 0 then Reject(Refused(400, NotPositive))
    else Accept(Fare(from.s, to.s, price.value))
  }

  /** handlePostFare's reading of a single fare. */
  function SingleFare(body: Body): Checked
  {
    CheckFare(EndpointField(body, "from", "fromStation"), EndpointField(body, "to", "toStation"), FirstNumber(body, PriceKeys))
  }

  /** Whether a POST goes to the bulk handler: the key is tested, not its value. */
  predicate RoutesToBulk(body: Body)
  {
    "segments" in body || "cost_regular" in body || "cost_express" in body
  }

  /** addFare on a fare table and the set of station codes: the new table, or None when refused. */
  function TryAdd(fares: map<string, Fare>, codes: set<string>, f: Fare): Option<map<string, Fare>>
  {
    if f.IsValid() && f.from in codes && f.to in codes && FareKey(f.from, f.to) !in fares
    then Some(fares[FareKey(f.from, f.to) := NormalizeFare(f)])
    else None
  }

  // ---------------- bulk entries ----------------

  /** The entry a format-1 segment contributes: one when both endpoints are strings. */
  function SegmentEntry(seg: Json, costRegular: int, costExpress: int): seq<Body>
  {
    if seg.JObj? && Field(seg.fields, "from").JStr? && Field(seg.fields, "to").JStr? then
      [map["from" := Field(seg.fields, "from"), "to" := Field(seg.fields, "to"),
           "cost_regular" := JNum(costRegular as real), "cost_express" := JNum(costExpress as real)]]
    else []
  }

  function SegmentEntries(segs: seq<Json>, costRegular: int, costExpress: int): seq<Body>
  {
    if segs == [] then []
    else SegmentEntries(segs[..|segs| - 1], costRegular, costExpress) + SegmentEntry(segs[|segs| - 1], costRegular, costExpress)
  }

  /** The entry a format-2 item contributes: its own map when it is an object. */
  function ObjectEntry(item: Json): seq<Body>
  {
    if item.JObj? then [item.fields] else []
  }

  function ObjectEntries(items: seq<Json>): seq<Body>
  {
    if items == [] then [] else ObjectEntries(items[..|items| - 1]) + ObjectEntry(items[|items| - 1])
  }

  /** cost_regular of a format-1 body, 0 when not a number. */
  function BulkRegular(body: Body): int
  {
    if Field(body, "cost_regular").JNum? then IntValue(Field(body, "cost_regular").n) else 0
  }

  /** cost_express of a format-1 body, cost_regular when not a number. */
  function BulkExpress(body: Body): int
  {
    if Field(body, "cost_express").JNum? then IntValue(Field(body, "cost_express").n) else BulkRegular(body)
  }

  /** The entries of a batch: format 1 when it yields any, else format 2. */
  function BulkEntries(body: Body): seq<Body>
  {
    var first := if Field(body, "segments").JList?
                 then SegmentEntries(Field(body, "segments").items, BulkRegular(body), BulkExpress(body))
                 else [];
    if Field(body, "fares").JList? && first == [] then ObjectEntries(Field(body, "fares").items) else first
  }

  /** How one batch entry is read: its fare, invalid data, or a failed cast. */
  datatype EntryCheck = EntryOk(fare: Fare) | EntryInvalid | EntryCrash

  function CheckEntry(e: Body): EntryCheck
  {
    var from := CastString(Field(e, "from"));
    var to := CastString(Field(e, "to"));
    var price := match FirstNumber(e, PriceKeys) case Some(p) => p case None => 0;
    if from.BadCast? || to.BadCast? then EntryCrash
    else if from.NullRef? || to.NullRef? || price <= 0 then EntryInvalid
    else EntryOk(Fare(from.s, to.s, price))
  }

  /** The bulk handler's counters and the fare table as it goes. */
  datatype Tally = Tally(fares: map<string, Fare>, success: nat, failed: nat, errors: seq<EntryError>, crashed: bool)

  function Step(t: Tally, codes: set<string>, e: Body): Tally
  {
    match CheckEntry(e)
    case EntryCrash => t.(crashed := true)
    case EntryInvalid => t.(failed := t.failed + 1, errors := t.errors + [InvalidEntry(e)])
    case EntryOk(f) =>
      match TryAdd(t.fares, codes, f)
      case Some(fs) => t.(fares := fs, success := t.success + 1)
      case None => t.(failed := t.failed + 1, errors := t.errors + [AddFailed(f.from, f.to)])
  }

  /** Every entry tried in turn, stopping at a failed cast. */
  function Run(t: Tally, codes: set<string>, entries: seq<Body>): Tally
    decreases |entries|
  {
    if entries == [] || t.crashed then t else Run(Step(t, codes, entries[0]), codes, entries[1..])
  }

  // ---------------- endpoint results ----------------

  /** handleBulkFares. */
  function BulkResult(fares: map<string, Fare>, codes: set<string>, body: Body): Outcome
  {
    var entries := BulkEntries(body);
    if entries == [] then Outcome(Refused(400, BadBulk), fares)
    else
      var t := Run(Tally(fares, 0, 0, [], false), codes, entries);
      Outcome(if t.crashed then Crashed else BulkDone(t.success, t.failed, t.errors), t.fares)
  }

  /** handlePostFare. */
  function PostResult(fares: map<string, Fare>, codes: set<string>, body: Body): Outcome
  {
    if RoutesToBulk(body) then BulkResult(fares, codes, body)
    else
      match SingleFare(body)
      case Reject(reply) => Outcome(reply, fares)
      case Accept(f) =>
        match TryAdd(fares, codes, f)
        case Some(fs) => Outcome(Added, fs)
        case None => Outcome(Refused(400, AddRefused), fares)
  }

  /** handlePutFare's reading of the endpoints: the body, else path parts 3 and 4. */
  function PutEndpoints(body: Body, parts: seq<string>): (Cast, Cast)
  {
    var from := EndpointField(body, "from", "fromStation");
    var to := EndpointField(body, "to", "toStation");
    if !from.BadCast? && !to.BadCast? && !(Given(from) && Given(to)) && |parts| >= 5
    then (Text(parts[3]), Text(parts[4]))
    else (from, to)
  }

  function PutFare(body: Body, parts: seq<string>): Checked
  {
    var (from, to) := PutEndpoints(body, parts);
    CheckFare(from, to, FirstNumber(body, PriceKeys))
  }

  /**
   * handlePutFare: 404 unless the pair (or its reverse) has a fare; then the
   * stored fare is removed and the new one added, and a refused add is a 500
   * with the old fare already gone.
   */
  function PutResult(fares: map<string, Fare>, codes: set<string>, body: Body, parts: seq<string>): Outcome
  {
    match PutFare(body, parts)
    case Reject(reply) => Outcome(reply, fares)
    case Accept(f) =>
      if LookupFare(fares, f.from, f.to).None? && LookupFare(fares, f.to, f.from).None? then Outcome(Refused(404, NotFound), fares)
      else
        var g := if LookupFare(fares, f.from, f.to).Some? then f else Fare(f.to, f.from, f.price);
        var removed := fares - {FareKey(g.from, g.to)};
        match TryAdd(removed, codes, g)
        case Some(fs) => Outcome(Updated, fs)
        case None => Outcome(Refused(500, UpdateFailed), removed)
  }

  /** handleDeleteFare: endpoints from the body, else from the path, else 400. */
  function DeleteResult(fares: map<string, Fare>, body: Body, parts: seq<string>): Outcome
  {
    var from := EndpointField(body, "from", "fromStation");
    var to := EndpointField(body, "to", "toStation");
    if from.BadCast? || to.BadCast? then Outcome(Crashed, fares)
    else if !(Given(from) && Given(to)) && |parts| < 5 then Outcome(Refused(400, MissingEndpoints), fares)
    else
      var (a, b) := if Given(from) && Given(to) then (from.s, to.s) else (parts[3], parts[4]);
      if FareKey(a, b) in fares then Outcome(Deleted, fares - {FareKey(a, b)})
      else Outcome(Refused(404, NotFound), fares)
  }

  /** The listing of handleGetFares, in the table's iteration order. */
  function Listing(fares: map<string, Fare>, order: seq<string>): seq<FareRow>
    requires forall i :: 0 <= i < |order| ==> order[i] in fares
  {
    seq(|order|, i requires 0 <= i < |order| => RowOf(fares[order[i]]))
  }

  /** handleGetFares: one fare for /api/fares/{from}/{to}, else the whole listing. */
  function GetResult(fares: map<string, Fare>, order: seq<string>, parts: seq<string>): Reply
    requires forall i :: 0 <= i < |order| ==> order[i] in fares
  {
    if |parts| >= 5 then
      var from, to := parts[3], parts[4];
      if LookupFare(fares, from, to).None? && LookupFare(fares, to, from).None? then Refused(404, NotFound)
      else
        var (a, b) := if LookupFare(fares, from, to).Some? then (from, to) else (to, from);
        match LookupFare(fares, a, b)
        case None => Refused(404, NotFound)
        case Some(f) => OneFare(RowOf(f))
    else FareRows(Listing(fares, order))
  }

  // ---------------- handlers ----------------

  /** handleGetFares, looping over the stored fares in the table's iteration order. */
  method GetFares(net: Registry, order: seq<string>, path: string) returns (reply: Reply)
    requires RouteGraph.Enumerates(order, net.fares)
    ensures reply == GetResult(net.fares, order, JavaSplit(path, '/'))
  {
    var parts := JavaSplit(path, '/');
    if |parts| >= 5 {
      var from, to := parts[3], parts[4];
      if !net.HasFare(from, to) {
        if !net.HasFare(to, from) {
          return Refused(404, NotFound);
        }
        from, to := to, from;
      }
      var fare := net.GetFare(from, to);
      if fare.None? {
        return Refused(404, NotFound);
      }
      return OneFare(RowOf(fare.value));
    }
    var rows: seq<FareRow> := [];
    var i := 0;
    while i < |order|
      invariant 0 <= i <= |order|
      invariant rows == Listing(net.fares, order[..i])
    {
      rows := rows + [RowOf(net.fares[order[i]])];
      i := i + 1;
    }
    assert order[..i] == order;
    reply := FareRows(rows);
  }

  /** The batch entries, gathered by the two loops of handleBulkFares. */
  method CollectEntries(body: Body) returns (entries: seq<Body>)
    ensures entries == BulkEntries(body)
  {
    entries := [];
    var segments := Field(body, "segments");
    if segments.JList? {
      var costRegular := if Field(body, "cost_regular").JNum? then IntValue(Field(body, "cost_regular").n) else 0;
      var costExpress := if Field(body, "cost_express").JNum? then IntValue(Field(body, "cost_express").n) else costRegular;
      var i := 0;
      while i < |segments.items|
        invariant 0 <= i <= |segments.items|
        invariant entries == SegmentEntries(segments.items[..i], costRegular, costExpress)
      {
        assert segments.items[..i + 1][..i] == segments.items[..i];
        entries := entries + SegmentEntry(segments.items[i], costRegular, costExpress);
        i := i + 1;
      }
      assert segments.items[..i] == segments.items;
    }
    var faresField := Field(body, "fares");
    if faresField.JList? && entries == [] {
      var i := 0;
      while i < |faresField.items|
        invariant 0 <= i <= |faresField.items|
        invariant entries == ObjectEntries(faresField.items[..i])
      {
        assert faresField.items[..i + 1][..i] == faresField.items[..i];
        entries := entries + ObjectEntry(faresField.items[i]);
        i := i + 1;
      }
      assert faresField.items[..i] == faresField.items;
    }
  }

  /** The loop of handleBulkFares: each entry tried on its own, a failed cast ending it. */
  method AddEntries(net: Registry, entries: seq<Body>) returns (success: nat, failed: nat, errors: seq<EntryError>, crashed: bool)
    requires net.Valid()
    modifies net
    ensures net.Valid() && net.stations == old(net.stations) && net.lines == old(net.lines)
    ensures Tally(net.fares, success, failed, errors, crashed) == Run(Tally(old(net.fares), 0, 0, [], false), old(net.stations).Keys, entries)
  {
    ghost var codes := net.stations.Keys;
    success, failed, errors, crashed := 0, 0, [], false;
    var i := 0;
    while i < |entries| && !crashed
      invariant 0 <= i <= |entries|
      decreases |entries| - i
      invariant net.Valid() && net.stations == old(net.stations) && net.lines == old(net.lines)
      invariant Run(Tally(net.fares, success, failed, errors, crashed), codes, entries[i..])
             == Run(Tally(old(net.fares), 0, 0, [], false), codes, entries)
    {
      assert entries[i..][0] == entries[i] && entries[i..][1..] == entries[i + 1..];
      success, failed, errors, crashed := AddEntry(net, entries[i], success, failed, errors);
      i := i + 1;
    }
  }

  /** One pass of that loop. */
  method AddEntry(net: Registry, e: Body, success: nat, failed: nat, errors: seq<EntryError>)
    returns (success': nat, failed': nat, errors': seq<EntryError>, crashed: bool)
    requires net.Valid()
    modifies net
    ensures net.Valid() && net.stations == old(net.stations) && net.lines == old(net.lines)
    ensures Tally(net.fares, success', failed', errors', crashed)
         == Step(Tally(old(net.fares), success, failed, errors, false), old(net.stations).Keys, e)
  {
    success', failed', errors', crashed := success, failed, errors, false;
    match CheckEntry(e)
    case EntryCrash =>
      crashed := true;
    case EntryInvalid =>
      failed' := failed + 1;
      errors' := errors + [InvalidEntry(e)];
    case EntryOk(f) =>
      var ok := net.AddFare(f);
      if ok {
        success' := success + 1;
      } else {
        failed' := failed + 1;
        errors' := errors + [AddFailed(f.from, f.to)];
      }
  }

  /** handleBulkFares. */
  method BulkFares(net: Registry, body: Body) returns (reply: Reply)
    requires net.Valid()
    modifies net
    ensures net.Valid() && net.stations == old(net.stations) && net.lines == old(net.lines)
    ensures Outcome(reply, net.fares) == BulkResult(old(net.fares), old(net.stations).Keys, body)
  {
    var entries := CollectEntries(body);
    if entries == [] {
      return Refused(400, BadBulk);
    }
    var success, failed, errors, crashed := AddEntries(net, entries);
    reply := if crashed then Crashed else BulkDone(success, failed, errors);
  }

  /** handlePostFare. */
  method PostFare(net: Registry, body: Body) returns (reply: Reply)
    requires net.Valid()
    modifies net
    ensures net.Valid() && net.stations == old(net.stations) && net.lines == old(net.lines)
    ensures Outcome(reply, net.fares) == PostResult(old(net.fares), old(net.stations).Keys, body)
  {
    if RoutesToBulk(body) {
      reply := BulkFares(net, body);
      return;
    }
    match SingleFare(body)
    case Reject(r) =>
      reply := r;
    case Accept(f) =>
      var ok := net.AddFare(f);
      reply := if ok then Added else Refused(400, AddRefused);
  }

  /** handlePutFare. */
  method PutFareAt(net: Registry, body: Body, path: string) returns (reply: Reply)
    requires net.Valid()
    modifies net
    ensures net.Valid() && net.stations == old(net.stations) && net.lines == old(net.lines)
    ensures Outcome(reply, net.fares) == PutResult(old(net.fares), old(net.stations).Keys, body, JavaSplit(path, '/'))
  {
    match PutFare(body, JavaSplit(path, '/'))
    case Reject(r) =>
      reply := r;
    case Accept(f) =>
      var from, to := f.from, f.to;
      if !net.HasFare(from, to) {
        if !net.HasFare(to, from) {
          return Refused(404, NotFound);
        }
        from, to := to, from;
      }
      var _ := net.RemoveFare(from, to);
      var ok := net.AddFare(Fare(from, to, f.price));
      reply := if ok then Updated else Refused(500, UpdateFailed);
  }

  /** handleDeleteFare. */
  method DeleteFare(net: Registry, body: Body, path: string) returns (reply: Reply)
    requires net.Valid()
    modifies net
    ensures net.Valid() && net.stations == old(net.stations) && net.lines == old(net.lines)
    ensures Outcome(reply, net.fares) == DeleteResult(old(net.fares), body, JavaSplit(path, '/'))
  {
    var from := EndpointField(body, "from", "fromStation");
    var to := EndpointField(body, "to", "toStation");
    if from.BadCast? || to.BadCast? {
      return Crashed;
    }
    var a, b;
    if Given(from) && Given(to) {
      a, b := from.s, to.s;
    } else {
      var parts := JavaSplit(path, '/');
      if |parts| < 5 {
        return Refused(400, MissingEndpoints);
      }
      a, b := parts[3], parts[4];
    }
    var ok := net.RemoveFare(a, b);
    reply := if ok then Deleted else Refused(404, NotFound);
  }

  // ---------------- properties ----------------

  /**
   * The bulk loop's accounting: it stops early exactly when some entry's
   * cast fails; otherwise every entry counts once, as a success or as a
   * failure with one error each. Fares are only ever added.
   */
  lemma {:induction false} RunCounts(t: Tally, codes: set<string>, entries: seq<Body>)
    requires !t.crashed
    ensures Run(t, codes, entries).crashed <==> exists i :: 0 <= i < |entries| && CheckEntry(entries[i]).EntryCrash?
    ensures !Run(t, codes, entries).crashed ==>
              Run(t, codes, entries).success + Run(t, codes, entries).failed == t.success + t.failed + |entries|
    ensures |Run(t, codes, entries).errors| - |t.errors| == Run(t, codes, entries).failed - t.failed
    ensures t.fares.Keys <= Run(t, codes, entries).fares.Keys
    decreases |entries|
  {
    if entries != [] {
      var t1 := Step(t, codes, entries[0]);
      if !t1.crashed {
        RunCounts(t1, codes, entries[1..]);
        assert forall i :: 1 <= i < |entries| ==> entries[i] == entries[1..][i - 1];
        assert forall i :: 0 <= i < |entries[1..]| ==> entries[1..][i] == entries[i + 1];
      }
    }
  }

  /** No entry, tried again on this table, would be added. */
  ghost predicate Saturated(fares: map<string, Fare>, codes: set<string>, entries: seq<Body>)
  {
    forall i :: 0 <= i < |entries| && CheckEntry(entries[i]).EntryOk? ==> TryAdd(fares, codes, CheckEntry(entries[i]).fare).None?
  }

  /** After a batch runs to the end, every one of its entries is refused by the resulting table. */
  lemma {:induction false} RunSaturates(t: Tally, codes: set<string>, entries: seq<Body>)
    requires !Run(t, codes, entries).crashed
    ensures Saturated(Run(t, codes, entries).fares, codes, entries)
    decreases |entries|
  {
    if entries != [] {
      var t1 := Step(t, codes, entries[0]);
      var r := Run(t1, codes, entries[1..]);
      assert !t1.crashed;
      RunSaturates(t1, codes, entries[1..]);
      RunCounts(t1, codes, entries[1..]);
      forall i | 0 <= i < |entries| && CheckEntry(entries[i]).EntryOk?
        ensures TryAdd(r.fares, codes, CheckEntry(entries[i]).fare).None?
      {
        if i == 0 {
          assert TryAdd(t1.fares, codes, CheckEntry(entries[0]).fare).None?;
        } else {
          assert entries[i] == entries[1..][i - 1];
        }
      }
    }
  }

  /** A batch on a table that refuses all its entries adds nothing. */
  lemma {:induction false} RunIdle(t: Tally, codes: set<string>, entries: seq<Body>)
    requires !t.crashed && Saturated(t.fares, codes, entries)
    requires forall i :: 0 <= i < |entries| ==> !CheckEntry(entries[i]).EntryCrash?
    ensures Run(t, codes, entries).fares == t.fares && Run(t, codes, entries).success == t.success
    decreases |entries|
  {
    if entries != [] {
      var t1 := Step(t, codes, entries[0]);
      assert t1.fares == t.fares && t1.success == t.success && !t1.crashed;
      assert forall i :: 0 <= i < |entries[1..]| ==> entries[1..][i] == entries[i + 1];
      RunIdle(t1, codes, entries[1..]);
    }
  }

  /**
   * A batch with entries is answered 201 with ok=true however many of them
   * fail, unless a cast fails; success and failed add up to the number of
   * entries; a batch without entries is a 400 that changes nothing.
   */
  lemma BulkAccounting(fares: map<string, Fare>, codes: set<string>, body: Body)
    ensures var o := BulkResult(fares, codes, body);
            (BulkEntries(body) == [] <==> o == Outcome(Refused(400, BadBulk), fares))
            && (o.reply.Crashed? <==> exists i :: 0 <= i < |BulkEntries(body)| && CheckEntry(BulkEntries(body)[i]).EntryCrash?)
            && (o.reply.BulkDone? ==> Status(o.reply) == 201 && o.reply.success + o.reply.failed == |BulkEntries(body)|
                                      && |o.reply.errors| == o.reply.failed)
            && fares.Keys <= o.fares.Keys
  {
    RunCounts(Tally(fares, 0, 0, [], false), codes, BulkEntries(body));
  }

  /**
   * Sending the same batch again fails every entry: whatever the first
   * request added is now refused by addFare as an existing pair.
   */
  lemma ResendFailsAll(fares: map<string, Fare>, codes: set<string>, body: Body)
    requires PostResult(fares, codes, body).reply.BulkDone?
    ensures var again := PostResult(PostResult(fares, codes, body).fares, codes, body);
            again.fares == PostResult(fares, codes, body).fares
            && again.reply.BulkDone? && again.reply.success == 0 && again.reply.failed == |BulkEntries(body)|
  {
    var entries := BulkEntries(body);
    assert RoutesToBulk(body);
    var t := Run(Tally(fares, 0, 0, [], false), codes, entries);
    RunCounts(Tally(fares, 0, 0, [], false), codes, entries);
    RunSaturates(Tally(fares, 0, 0, [], false), codes, entries);
    RunIdle(Tally(t.fares, 0, 0, [], false), codes, entries);
    RunCounts(Tally(t.fares, 0, 0, [], false), codes, entries);
  }

  /**
   * Format 1 prices every segment at cost_regular: an entry is valid when
   * cost_regular is positive, and cost_express never matters.
   */
  lemma {:induction false} SegmentEntriesPriced(segs: seq<Json>, costRegular: int, costExpress: int)
    requires IntMin <= costRegular <= IntMax
    ensures var r := SegmentEntries(segs, costRegular, costExpress);
            |r| <= |segs|
            && forall i :: 0 <= i < |r| ==>
                 Field(r[i], "from").JStr? && Field(r[i], "to").JStr?
                 && CheckEntry(r[i]) == (if costRegular > 0 then EntryOk(Fare(Field(r[i], "from").s, Field(r[i], "to").s, costRegular))
                                         else EntryInvalid)
    decreases |segs|
  {
    if segs != [] {
      SegmentEntriesPriced(segs[..|segs| - 1], costRegular, costExpress);
      var e := SegmentEntry(segs[|segs| - 1], costRegular, costExpress);
      if e != [] {
        assert Field(e[0], "cost_regular") == JNum(costRegular as real);
        assert FirstNumber(e[0], PriceKeys) == Some(costRegular) by {
          assert Field(e[0], PriceKeys[0]).JNum?;
        }
      }
    }
  }

  /**
   * The body the main page's segment editor posts for one segment, with its
   * regular and express prices (a number, or null where the prompt gave
   * something that is not one).
   */
  function EditorFareBody(from: string, to: string, regular: Json, express: Json): Body
  {
    map["from" := JStr(from), "to" := JStr(to), "cost_regular" := regular, "cost_express" := express]
  }

  /**
   * The editor's single-segment save is always refused: its cost_regular
   * key sends it to the bulk handler, which finds neither segments nor
   * fares in it.
   */
  lemma EditorPostRejected(fares: map<string, Fare>, codes: set<string>, from: string, to: string, regular: Json, express: Json)
    ensures PostResult(fares, codes, EditorFareBody(from, to, regular, express)) == Outcome(Refused(400, BadBulk), fares)
  {
    var body := EditorFareBody(from, to, regular, express);
    assert "cost_regular" in body;
    assert Field(body, "segments") == JNull && Field(body, "fares") == JNull;
  }

  /**
   * A single-fare POST adds exactly the fare it reads, normalized under its
   * key, when the fare is valid, both stations exist and the pair has no
   * fare yet; anything else changes nothing and is a 400 or a 500.
   */
  lemma SinglePost(fares: map<string, Fare>, codes: set<string>, body: Body)
    requires !RoutesToBulk(body)
    ensures var o := PostResult(fares, codes, body);
            (o.reply == Added <==> SingleFare(body).Accept? && TryAdd(fares, codes, SingleFare(body).fare).Some?)
            && (o.reply == Added ==> var f := SingleFare(body).fare;
                  f.IsValid() && f.from in codes && f.to in codes && FareKey(f.from, f.to) !in fares
                  && o.fares == fares[FareKey(f.from, f.to) := NormalizeFare(f)])
            && (o.reply != Added ==> o.fares == fares && (o.reply.Crashed? || Status(o.reply) == 400))
  {
  }

  /**
   * A PUT that passes its checks: a 404 when the pair has no fare in either
   * direction; otherwise the fare is replaced when both stations exist, and
   * when one does not the old fare is gone and the answer is 500. The
   * reverse-direction retry never finds a fare the first lookup missed.
   */
  lemma PutReplaces(fares: map<string, Fare>, codes: set<string>, body: Body, parts: seq<string>, f: Fare)
    requires PutFare(body, parts) == Accept(f)
    ensures var o := PutResult(fares, codes, body, parts);
            var key := FareKey(f.from, f.to);
            f.IsValid()
            && (key !in fares ==> o == Outcome(Refused(404, NotFound), fares))
            && (key in fares && f.from in codes && f.to in codes ==> o == Outcome(Updated, fares[key := NormalizeFare(f)]))
            && (key in fares && !(f.from in codes && f.to in codes) ==> o == Outcome(Refused(500, UpdateFailed), fares - {key}))
  {
    LookupFareSymmetric(fares, f.from, f.to);
    var key := FareKey(f.from, f.to);
    if key in fares {
      assert (fares - {key})[key := NormalizeFare(f)] == fares[key := NormalizeFare(f)];
    }
  }

  /** A PUT that fails a check changes nothing. */
  lemma PutRejectKeeps(fares: map<string, Fare>, codes: set<string>, body: Body, parts: seq<string>)
    requires PutFare(body, parts).Reject?
    ensures PutResult(fares, codes, body, parts).fares == fares
    ensures PutResult(fares, codes, body, parts).reply.Crashed? || Status(PutResult(fares, codes, body, parts).reply) == 400
  {
  }

  /**
   * Because the key is not injective, a PUT naming a pair that is not a
   * segment can still match another pair's fare: the request for "01-02-03"
   * to "04" finds the fare between "01-02" and "03-04", removes it, fails to
   * add its own (no such station) and answers 500 with that fare gone.
   */
  lemma PutCollisionLosesFare(parts: seq<string>)
    ensures var fares := map[FareKey("01-02", "03-04") := Fare("01-02", "03-04", 5)];
            var body := map["from" := JStr("01-02-03"), "to" := JStr("04"), "price" := JNum(7.0)];
            PutResult(fares, {"01-02", "03-04"}, body, parts) == Outcome(Refused(500, UpdateFailed), map[])
  {
    var key := "01-02-03-04";
    CollisionKeys();
    var fares := map[key := Fare("01-02", "03-04", 5)];
    var f := Fare("01-02-03", "04", 7);
    CollisionRequest(parts);
    assert LookupFare(fares, f.from, f.to) == Some(Fare("01-02", "03-04", 5));
    assert fares - {key} == map[];
    assert TryAdd(map[], {"01-02", "03-04"}, f) == None;
  }

  lemma CollisionKeys()
    ensures FareKey("01-02", "03-04") == "01-02-03-04" && FareKey("01-02-03", "04") == "01-02-03-04"
  {
    assert LexLe("01-02", "03-04");
    assert LexLe("01-02-03", "04");
  }

  lemma CollisionRequest(parts: seq<string>)
    ensures PutFare(map["from" := JStr("01-02-03"), "to" := JStr("04"), "price" := JNum(7.0)], parts)
            == Accept(Fare("01-02-03", "04", 7))
  {
    var body := map["from" := JStr("01-02-03"), "to" := JStr("04"), "price" := JNum(7.0)];
    assert FirstNumber(body, PriceKeys) == Some(7) by {
      assert !Field(body, PriceKeys[0]).JNum? && !Field(body, PriceKeys[1]).JNum? && Field(body, PriceKeys[2]).JNum?;
    }
    assert EndpointField(body, "from", "fromStation") == Text("01-02-03");
    assert EndpointField(body, "to", "toStation") == Text("04");
  }

  /**
   * DELETE removes the fare of the pair it names, and answers 404 and
   * changes nothing when that pair has none; when the body names both
   * endpoints, that is the pair.
   */
  lemma DeleteRemoves(fares: map<string, Fare>, body: Body, parts: seq<string>)
    ensures var o := DeleteResult(fares, body, parts);
            (o.reply == Deleted ==> exists a, b :: FareKey(a, b) in fares && o.fares == fares - {FareKey(a, b)})
            && (o.reply != Deleted ==> o.fares == fares)
    ensures var from := EndpointField(body, "from", "fromStation");
            var to := EndpointField(body, "to", "toStation");
            Given(from) && Given(to) ==>
              DeleteResult(fares, body, parts)
              == if FareKey(from.s, to.s) in fares then Outcome(Deleted, fares - {FareKey(from.s, to.s)})
                 else Outcome(Refused(404, NotFound), fares)
  {
  }

  /**
   * The listing has one row per stored fare, and every row carries the
   * stored price under cost, cost_regular, cost_express and price alike.
   */
  lemma ListingCovers(fares: map<string, Fare>, order: seq<string>)
    requires RouteGraph.Enumerates(order, fares)
    ensures |Listing(fares, order)| == |order|
    ensures forall k :: k in fares ==> exists i :: 0 <= i < |order| && Listing(fares, order)[i] == RowOf(fares[k])
    ensures forall i :: 0 <= i < |order| ==> var row := Listing(fares, order)[i];
              row.cost == row.costRegular == row.costExpress == row.price == fares[order[i]].price
              && row.from == fares[order[i]].from && row.to == fares[order[i]].to
  {
    forall k | k in fares
      ensures exists i :: 0 <= i < |order| && Listing(fares, order)[i] == RowOf(fares[k])
    {
      var i :| 0 <= i < |order| && order[i] == k;
      assert Listing(fares, order)[i] == RowOf(fares[k]);
    }
  }

  /** GET /api/fares/{from}/{to} finds the pair's fare in either direction, or answers 404. */
  lemma GetOneFare(fares: map<string, Fare>, order: seq<string>, parts: seq<string>)
    requires forall i :: 0 <= i < |order| ==> order[i] in fares
    requires |parts| >= 5
    ensures var key := FareKey(parts[3], parts[4]);
            GetResult(fares, order, parts) == if key in fares then OneFare(RowOf(fares[key])) else Refused(404, NotFound)
  {
    LookupFareSymmetric(fares, parts[3], parts[4]);
  }
}
