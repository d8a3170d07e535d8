/** The value-level half of the ASN WHOIS client (RashlyOutlaid/libwhois.py):
    the query shapes, the errors, the IPv4 check `is_ip` accepts, what
    `_perform_query` puts on the wire, and how `get_result` turns the reply
    into a mapping from address to `ASNRecord`. The stateful half, the
    `Whois` and `ASNWhois` objects, is in module LibWhois. */
module Protocol {
  import opened Wrappers
  import opened PyText

  /** What may be assigned to `ASNWhois.query`: a string, a list of strings,
      or any other Python value, of which only its truthiness matters. */
  datatype Query = Str(s: string) | Lst(items: seq<string>) | Other(truthy: bool)

  /** The exceptions of the client and of the HTTP lookups. All but
      RecordArity and KeyError are `QueryError`. */
  datatype Error =
    | EmptyQuery                        // "Trying to perform empty query"
    | NotStringOrList                   // "Need string or list of strings"
    | NotIPv4(address: string)          // "Not an IPv4 address " + address
    | PeersNotBool                      // "peers property must be either True or False"
    | ReadOnlyResult                    // "Read only property: Result"
    | RecordArity(given: nat)           // TypeError: ASNRecord called with `given` values
    | KeyError(key: string)             // a JSON object without a required key
    | HttpStatus(url: string, status: int)

  /** The `ASNRecord` named tuple. */
  datatype ASNRecord = ASNRecord(
    asn: string, prefix: string, asname: string, cn: string, isp: string, peers: seq<string>)

  /** `not query` in Python: the empty string, the empty list, or a falsy
      other value. */
  predicate IsEmptyQuery(q: Query) {
    match q
    case Str(s) => s == ""
    case Lst(xs) => xs == []
    case Other(truthy) => !truthy
  }

  // ---------------------------------------------------------------------
  // is_ip
  // ---------------------------------------------------------------------

  /** Octet number `c` of a dotted quad as `is_ip` judges it. For octet 0
      the upper bound is tested against the position (`c < 256`), which
      always holds, so octet 0 only has to be at least 1. */
  predicate OctetOk(c: nat, t: string) {
    match ParseInt(t)
    case None => false
    case Some(v) => if c == 0 then v >= 1 else 0 <= v < 256
  }

  /** The strings `is_ip` accepts: after `strip()`, exactly four
      `.`-separated parts, each an integer in its octet's range. */
  predicate ValidAddress(data: string) {
    var parts := Split(Strip(data), '.');
    |parts| == 4 && forall c :: 0 <= c < 4 ==> OctetOk(c, parts[c])
  }

  /** The dotted-quad text of four numbers. */
  function Dotted(a: nat, b: nat, c: nat, d: nat): string {
    Join([Decimal(a), Decimal(b), Decimal(c), Decimal(d)], '.')
  }

  lemma OctetOfDecimal(c: nat, x: nat)
    ensures OctetOk(c, Decimal(x)) <==> (if c == 0 then x >= 1 else x < 256)
  {
    ParseIntDecimal(x);
  }

  lemma DottedStripped(a: nat, b: nat, c: nat, d: nat)
    ensures Stripped(Dotted(a, b, c, d))
  {
    var da, db, dc, dd := Decimal(a), Decimal(b), Decimal(c), Decimal(d);
    var s := Dotted(a, b, c, d);
    assert Join([dd], '.') == dd;
    assert Join([dc, dd], '.') == dc + "." + dd;
    assert Join([db, dc, dd], '.') == db + "." + (dc + "." + dd);
    assert s == da + "." + (db + "." + (dc + "." + dd));
    assert s[0] == da[0];
    assert s[|s| - 1] == dd[|dd| - 1];
  }

  /** `is_ip` on a string whose stripped text splits into four parts. */
  lemma FourParts(ok: (nat, string) -> bool, parts: seq<string>)
    requires |parts| == 4
    ensures (forall c :: 0 <= c < 4 ==> ok(c, parts[c]))
            <==> ok(0, parts[0]) && ok(1, parts[1]) && ok(2, parts[2]) && ok(3, parts[3])
  {
    if ok(0, parts[0]) && ok(1, parts[1]) && ok(2, parts[2]) && ok(3, parts[3]) {
      forall c | 0 <= c < 4 ensures ok(c, parts[c]) {
        if c == 0 {} else if c == 1 {} else if c == 2 {} else {}
      }
    }
  }

  lemma ValidAddressParts(s: string, parts: seq<string>)
    requires Split(Strip(s), '.') == parts && |parts| == 4
    ensures ValidAddress(s)
            <==> OctetOk(0, parts[0]) && OctetOk(1, parts[1]) && OctetOk(2, parts[2]) && OctetOk(3, parts[3])
  {
    FourParts(OctetOk, parts);
  }

  lemma DottedSplit(a: nat, b: nat, c: nat, d: nat)
    ensures Split(Strip(Dotted(a, b, c, d)), '.') == [Decimal(a), Decimal(b), Decimal(c), Decimal(d)]
  {
    var parts := [Decimal(a), Decimal(b), Decimal(c), Decimal(d)];
    var s := Dotted(a, b, c, d);
    DottedStripped(a, b, c, d);
    StripStripped(s);
    forall i | 0 <= i < 4 ensures '.' !in parts[i] {
      assert AllDigits(parts[i]);
    }
    SplitJoin(parts, '.');
  }

  /** A dotted quad of decimal numbers passes `is_ip` exactly when its first
      number is at least 1 and the other three are at most 255: there is no
      upper bound on the first number. */
  lemma OctetsOfDecimals(a: nat, b: nat, c: nat, d: nat)
    ensures OctetOk(0, Decimal(a)) && OctetOk(1, Decimal(b)) && OctetOk(2, Decimal(c)) && OctetOk(3, Decimal(d))
            <==> 1 <= a && b < 256 && c < 256 && d < 256
  {
    OctetOfDecimal(0, a);
    OctetOfDecimal(1, b);
    OctetOfDecimal(2, c);
    OctetOfDecimal(3, d);
  }

  lemma DottedQuad(a: nat, b: nat, c: nat, d: nat)
    ensures ValidAddress(Dotted(a, b, c, d)) <==> 1 <= a && b < 256 && c < 256 && d < 256
  {
    DottedSplit(a, b, c, d);
    ValidAddressParts(Dotted(a, b, c, d), [Decimal(a), Decimal(b), Decimal(c), Decimal(d)]);
    OctetsOfDecimals(a, b, c, d);
  }

  /** `is_ip` ignores whitespace around the address. */
  lemma ValidAddressPadded(pad1: string, core: string, pad2: string)
    requires AllSpace(pad1) && AllSpace(pad2) && Stripped(core)
    ensures ValidAddress(pad1 + core + pad2) <==> ValidAddress(core)
  {
    StripPadded(pad1, core, pad2);
    StripStripped(core);
  }

  /** `is_ip("999.1.1.1")` holds: the first octet has no upper bound. */
  lemma FirstOctetUnbounded()
    ensures ValidAddress("999.1.1.1")
  {
    assert Decimal(999) == "999" && Decimal(1) == "1";
    assert Dotted(999, 1, 1, 1) == "999.1.1.1";
    DottedQuad(999, 1, 1, 1);
  }

  /** `is_ip("0.1.2.3")` is false: the first octet must be at least 1. */
  lemma FirstOctetNotZero()
    ensures !ValidAddress("0.1.2.3")
  {
    assert Decimal(0) == "0" && Decimal(1) == "1" && Decimal(2) == "2" && Decimal(3) == "3";
    assert Dotted(0, 1, 2, 3) == "0.1.2.3";
    DottedQuad(0, 1, 2, 3);
  }

  /** `is_ip("1.2.3")` is false: too few parts. */
  lemma TooFewParts()
    ensures !ValidAddress("1.2.3")
  {
    var s := "1.2.3";
    StripStripped(s);
    assert s == Join(["1", "2", "3"], '.');
    SplitJoin(["1", "2", "3"], '.');
  }

  /** The batch terminator "end" is not an address. */
  lemma EndNotAddress()
    ensures !ValidAddress(EndLine)
  {
    var s := EndLine;
    assert Stripped(s) && '.' !in s;
    StripStripped(s);
    SplitNoSep(s, '.');
    assert |Split(Strip(s), '.')| == 1;
  }

  // ---------------------------------------------------------------------
  // The request: _perform_query, _query_single, _query_multiple, send
  // ---------------------------------------------------------------------

  const EndLine := "end"

  /** What `Whois.send(line)` writes: the line and a line feed. */
  function Frame(line: string): (r: string)
    ensures |r| == |line| + 1 && r[..|line|] == line && r[|line|] == '\n'
  {
    line + "\n"
  }

  function Frames(lines: seq<string>): (r: seq<string>)
    ensures |r| == |lines|
    ensures forall i :: 0 <= i < |lines| ==> r[i] == Frame(lines[i])
  {
    seq(|lines|, i requires 0 <= i < |lines| => Frame(lines[i]))
  }

  /** The one line of a single query: `" ".join(["peer", q])` or
      `" ".join(["origin", q])`. */
  function SingleLine(q: string, peers: bool): (r: string)
    ensures |r| > |q| && r[|r| - |q|..] == q
    ensures peers <==> r[..|r| - |q|] == "peer "
    ensures !peers <==> r[..|r| - |q|] == "origin "
  {
    (if peers then "peer" else "origin") + " " + q
  }

  function BeginLine(peers: bool): (r: string)
    ensures r != EndLine
    ensures peers <==> r == "begin peer"
  {
    if peers then "begin peer" else "begin origin"
  }

  /** The position of the first element `ok` rejects, or the length when
      there is none. */
  function FirstFailing<T>(ok: T -> bool, xs: seq<T>): (i: nat)
    ensures i <= |xs|
    ensures forall j :: 0 <= j < i ==> ok(xs[j])
    ensures i < |xs| ==> !ok(xs[i])
  {
    if xs == [] then 0
    else if !ok(xs[0]) then 0
    else 1 + FirstFailing(ok, xs[1..])
  }

  /** The position of the first address `is_ip` rejects, or the length when
      there is none. */
  function FirstInvalid(qs: seq<string>): nat {
    FirstFailing(ValidAddress, qs)
  }

  /** What a lookup does before reading the reply: whether it connects,
      what it sends, and the error it raises, if any. */
  datatype Dispatch = Dispatch(connected: bool, sent: seq<string>, failure: Option<Error>)

  /** `_perform_query` and the `_query_single` / `_query_multiple` it picks. */
  function Plan(query: Query, peers: bool): (d: Dispatch)
    ensures d.connected <==> (query.Str? && query.s != "" && ValidAddress(query.s))
                             || (query.Lst? && query.items != [])
    ensures !d.connected ==> d.sent == [] && d.failure.Some?
    ensures IsEmptyQuery(query) ==> d.failure == Some(EmptyQuery)
    ensures query.Other? && query.truthy ==> d.failure == Some(NotStringOrList)
    ensures query.Str? && query.s != "" && !ValidAddress(query.s) ==> d.failure == Some(NotIPv4(query.s))
    ensures d.failure.None? ==> Last(d.sent) == Frame(if query.Str? then SingleLine(query.s, peers) else EndLine)
  {
    if IsEmptyQuery(query) then Dispatch(false, [], Some(EmptyQuery))
    else
      match query
      case Str(q) =>
        if !ValidAddress(q) then Dispatch(false, [], Some(NotIPv4(q)))
        else Dispatch(true, [Frame(SingleLine(q, peers))], None)
      case Lst(qs) =>
        var i := FirstInvalid(qs);
        var sent := [Frame(BeginLine(peers))] + Frames(qs[..i]);
        if i < |qs| then Dispatch(true, sent, Some(NotIPv4(qs[i])))
        else Dispatch(true, sent + [Frame(EndLine)], None)
      case Other(_) => Dispatch(false, [], Some(NotStringOrList))
  }

  function Last(xs: seq<string>): string {
    if xs == [] then "" else xs[|xs| - 1]
  }

  lemma PlanBatch(qs: seq<string>, peers: bool)
    requires qs != []
    ensures var i := FirstInvalid(qs);
      var sent := [Frame(BeginLine(peers))] + Frames(qs[..i]);
      Plan(Lst(qs), peers)
        == if i < |qs| then Dispatch(true, sent, Some(NotIPv4(qs[i])))
           else Dispatch(true, sent + [Frame(EndLine)], None)
  {
  }

  lemma FrameInjective(a: string, b: string)
    requires Frame(a) == Frame(b)
    ensures a == b
  {
    assert a == Frame(a)[..|a|];
  }

  lemma ValidNotEnd(q: string)
    requires ValidAddress(q)
    ensures q != EndLine
  {
    EndNotAddress();
  }

  lemma BeginNotEnd(peers: bool)
    ensures Frame(BeginLine(peers)) != Frame(EndLine)
  {
    if Frame(BeginLine(peers)) == Frame(EndLine) { FrameInjective(BeginLine(peers), EndLine); }
  }

  lemma NoEndFrame(qs: seq<string>, peers: bool)
    requires forall j :: 0 <= j < |qs| ==> qs[j] != EndLine
    ensures Frame(EndLine) !in [Frame(BeginLine(peers))] + Frames(qs)
  {
    var sent := [Frame(BeginLine(peers))] + Frames(qs);
    forall j | 0 <= j < |sent| ensures sent[j] != Frame(EndLine) {
      if j == 0 {
        BeginNotEnd(peers);
      } else {
        assert sent[j] == Frame(qs[j - 1]);
        if qs[j - 1] + "\n" == EndLine + "\n" {
          FrameInjective(qs[j - 1], EndLine);
        }
      }
    }
  }

  /** A batch with an invalid address stops at it: the begin line and the
      addresses before it have been sent, "end" never is. */
  lemma BatchAbort(qs: seq<string>, peers: bool)
    requires FirstInvalid(qs) < |qs|
    ensures var i := FirstInvalid(qs);
      && Plan(Lst(qs), peers).failure == Some(NotIPv4(qs[i]))
      && Plan(Lst(qs), peers).sent == [Frame(BeginLine(peers))] + Frames(qs[..i])
      && Frame(EndLine) !in Plan(Lst(qs), peers).sent
  {
    var i := FirstInvalid(qs);
    PlanBatch(qs, peers);
    forall j | 0 <= j < i ensures qs[..i][j] != EndLine {
      ValidNotEnd(qs[j]);
    }
    NoEndFrame(qs[..i], peers);
  }

  /** What the server reads from the wire; the inverse of Plan. */
  datatype Request = Request(query: Query, peers: bool)

  /** A single request is one line: "peer " or "origin ", the query, one
      line feed. A batch is the begin line, the addresses and "end", one
      line each. */
  function DecodeRequest(wire: string): Option<Request> {
    if |wire| > 5 && wire[..5] == "peer " && wire[|wire| - 1] == '\n' && '\n' !in wire[..|wire| - 1] then
      Some(Request(Str(wire[5..|wire| - 1]), true))
    else if |wire| > 7 && wire[..7] == "origin " && wire[|wire| - 1] == '\n' && '\n' !in wire[..|wire| - 1] then
      Some(Request(Str(wire[7..|wire| - 1]), false))
    else
      var lines := Split(wire, '\n');
      var n := |lines|;
      if n >= 3 && lines[n - 1] == "" && lines[n - 2] == EndLine
         && (lines[0] == BeginLine(true) || lines[0] == BeginLine(false))
      then Some(Request(Lst(lines[1..n - 2]), lines[0] == BeginLine(true)))
      else None
  }

  lemma {:induction false} ConcatFrames(lines: seq<string>)
    ensures Concat(Frames(lines)) == Join(lines + [""], '\n')
  {
    if lines != [] {
      ConcatFrames(lines[1..]);
      assert Frames(lines)[1..] == Frames(lines[1..]);
      assert (lines + [""])[1..] == lines[1..] + [""];
    }
  }

  lemma SingleRoundTrip(q: string, peers: bool)
    requires '\n' !in q
    ensures DecodeRequest(Frame(SingleLine(q, peers))) == Some(Request(Str(q), peers))
  {
    var wire := Frame(SingleLine(q, peers));
    if peers {
      assert wire == "peer " + q + "\n";
      assert wire[..5] == "peer ";
      assert wire[..|wire| - 1] == "peer " + q;
      assert wire[5..|wire| - 1] == q;
    } else {
      assert wire == "origin " + q + "\n";
      assert wire[0] == 'o';
      assert wire[..5][0] != "peer "[0];
      assert wire[..7] == "origin ";
      assert wire[..|wire| - 1] == "origin " + q;
      assert wire[7..|wire| - 1] == q;
    }
  }

  lemma BatchLines(qs: seq<string>, peers: bool)
    requires forall i :: 0 <= i < |qs| ==> '\n' !in qs[i]
    ensures var lines := [BeginLine(peers)] + qs + [EndLine];
      Split(Concat(Frames(lines)), '\n') == lines + [""]
  {
    var lines := [BeginLine(peers)] + qs + [EndLine];
    ConcatFrames(lines);
    var all := lines + [""];
    forall i | 0 <= i < |all| ensures '\n' !in all[i] {
      if 1 <= i <= |qs| {
        assert all[i] == qs[i - 1];
      }
    }
    SplitJoin(all, '\n');
  }

  lemma BatchRoundTrip(qs: seq<string>, peers: bool)
    requires forall i :: 0 <= i < |qs| ==> '\n' !in qs[i]
    ensures var lines := [BeginLine(peers)] + qs + [EndLine];
      DecodeRequest(Concat(Frames(lines))) == Some(Request(Lst(qs), peers))
  {
    var lines := [BeginLine(peers)] + qs + [EndLine];
    var wire := Concat(Frames(lines));
    BatchLines(qs, peers);
    assert Frames(lines)[0] == Frame(BeginLine(peers));
    assert wire[..5] == "begin";
    var all := lines + [""];
    assert all[1..|all| - 2] == qs;
  }
  lemma PlanSingle(q: string, peers: bool)
    requires Plan(Str(q), peers).failure.None?
    ensures Plan(Str(q), peers).sent == [Frame(SingleLine(q, peers))]
  {
  }

  lemma ConcatOne(line: string)
    ensures Concat([line]) == line
  {
    assert Concat([line]) == line + Concat([]);
  }

  lemma FramesAppend(a: seq<string>, b: seq<string>)
    ensures Frames(a + b) == Frames(a) + Frames(b)
  {
  }

  lemma PlanBatchSent(qs: seq<string>, peers: bool)
    requires Plan(Lst(qs), peers).failure.None?
    ensures Plan(Lst(qs), peers).sent == Frames([BeginLine(peers)] + qs + [EndLine])
  {
    assert qs != [];
    PlanBatch(qs, peers);
    assert FirstInvalid(qs) == |qs|;
    assert qs[..|qs|] == qs;
    FramesAppend([BeginLine(peers)], qs);
    FramesAppend([BeginLine(peers)] + qs, [EndLine]);
    assert Frames([BeginLine(peers)]) == [Frame(BeginLine(peers))];
    assert Frames([EndLine]) == [Frame(EndLine)];
  }

  /** Whatever a successful lookup sends, the server reads back the same
      query and mode, provided no address holds a line feed (see
      NewlineAddressUnreadable). */
  lemma PlanRoundTrip(query: Query, peers: bool)
    requires Plan(query, peers).failure.None?
    requires query.Str? ==> '\n' !in query.s
    requires query.Lst? ==> forall i :: 0 <= i < |query.items| ==> '\n' !in query.items[i]
    ensures DecodeRequest(Concat(Plan(query, peers).sent)) == Some(Request(query, peers))
  {
    if query.Str? {
      PlanSingle(query.s, peers);
      ConcatOne(Frame(SingleLine(query.s, peers)));
      SingleRoundTrip(query.s, peers);
    } else {
      PlanBatchSent(query.items, peers);
      BatchRoundTrip(query.items, peers);
    }
  }

  lemma SampleAddressValid()
    ensures ValidAddress("1.2.3.4")
  {
    assert Decimal(1) == "1" && Decimal(2) == "2" && Decimal(3) == "3" && Decimal(4) == "4";
    assert Dotted(1, 2, 3, 4) == "1.2.3.4";
    DottedQuad(1, 2, 3, 4);
  }

  lemma NewlineAddressValid()
    ensures ValidAddress("1.2.3.4\n")
  {
    SampleAddressValid();
    assert "" + "1.2.3.4" + "\n" == "1.2.3.4\n";
    ValidAddressPadded("", "1.2.3.4", "\n");
  }

  lemma TwoLinesUnreadable()
    ensures DecodeRequest("origin 1.2.3.4\n\n") == None
  {
    var wire := "origin 1.2.3.4\n\n";
    assert wire[..|wire| - 1][14] == '\n';
    assert wire[..5][0] != "peer "[0];
    assert wire == "origin 1.2.3.4" + ['\n'] + "\n";
    SplitAround("origin 1.2.3.4", '\n', "\n");
    assert Split(wire, '\n')[0] == "origin 1.2.3.4";
  }

  lemma NewlineWire()
    ensures Frame(SingleLine("1.2.3.4\n", false)) == "origin 1.2.3.4\n\n"
  {
  }

  /** `is_ip` strips its argument, so "1.2.3.4\n" passes it; the lookup
      then sends "origin 1.2.3.4\n\n", two lines, which is no request. */
  lemma NewlineAddressUnreadable()
    ensures ValidAddress("1.2.3.4\n")
    ensures Plan(Str("1.2.3.4\n"), false).failure.None?
    ensures DecodeRequest(Concat(Plan(Str("1.2.3.4\n"), false).sent)) == None
  {
    NewlineAddressValid();
    PlanSingle("1.2.3.4\n", false);
    ConcatOne(Frame(SingleLine("1.2.3.4\n", false)));
    NewlineWire();
    TwoLinesUnreadable();
  }

  // ---------------------------------------------------------------------
  // The reply: the parsing loop of get_result
  // ---------------------------------------------------------------------

  /** The state `get_result` parses under: a batch or not (`_multiple`),
      peer mode or not (`_peers`), and the single query (the key when not a
      batch). */
  datatype Mode = Mode(batch: bool, peers: bool, queried: string)

  /** `_base_idx`: one more for a batch, one more for peer mode. */
  function BaseIdx(m: Mode): (b: nat)
    ensures b <= 2
    ensures b >= 1 <==> m.batch || m.peers
  {
    (if m.batch then 1 else 0) + (if m.peers then 1 else 0)
  }

  /** `[element.strip() for element in line.split('|')]`. */
  function Fields(line: string): (r: seq<string>)
    ensures |r| == |Split(line, '|')|
    ensures forall i :: 0 <= i < |r| ==> r[i] == Strip(Split(line, '|')[i])
  {
    var raw := Split(line, '|');
    seq(|raw|, i requires 0 <= i < |raw| => Strip(raw[i]))
  }

  /** What one reply line does: skipped, an entry, or the TypeError of an
      `ASNRecord` built from the wrong number of values. */
  datatype LineOutcome = Skip | Entry(key: string, record: ASNRecord) | Arity(given: nat)

  /** One iteration of the loop in `get_result`. */
  function ParseLine(line: string, m: Mode): (o: LineOutcome)
    ensures o.Skip? <==> |Fields(line)| < 6
    ensures o.Entry? <==> BaseIdx(m) >= 1 && |Fields(line)| == BaseIdx(m) + 5
    ensures o.Arity? ==> o.given == |Fields(line)| - BaseIdx(m) + 1 && o.given != 6
    ensures o.Entry? && m.batch ==> o.key == Fields(line)[0]
    ensures o.Entry? && !m.batch ==> o.key == m.queried
  {
    var el := Fields(line);
    var base := BaseIdx(m);
    if |el| < 6 then Skip
    else if |el| != base + 5 then Arity(|el| - base + 1)
    else
      var peers := if m.peers then Words(el[base - 1]) else [];
      var key :=
        if m.batch && m.peers then el[base - 2]
        else if m.batch then el[base - 1]
        else m.queried;
      Entry(key, ASNRecord(el[base], el[base + 1], el[base + 2], el[base + 3], el[base + 4], peers))
  }

  /** The fields the server sends for one record: the address in a batch,
      the space-separated peer ASNs in peer mode, then the five record
      fields. */
  function ServerFields(key: string, rec: ASNRecord, m: Mode): (r: seq<string>)
    ensures |r| == BaseIdx(m) + 5
  {
    (if m.batch then [key] else [])
    + (if m.peers then [Join(rec.peers, ' ')] else [])
    + [rec.asn, rec.prefix, rec.asname, rec.cn, rec.isp]
  }

  /** Whitespace the server may put before or after a field. Being
      whitespace it never holds `|`; within one line it holds no line
      feed either. */
  predicate Padding(p: string) {
    AllSpace(p) && '\n' !in p
  }

  predicate WellPadded(pads: seq<(string, string)>) {
    forall i :: 0 <= i < |pads| ==> Padding(pads[i].0) && Padding(pads[i].1)
  }

  /** Each field between its leading and trailing padding. */
  function Padded(parts: seq<string>, pads: seq<(string, string)>): (r: seq<string>)
    requires |pads| == |parts|
    ensures |r| == |parts|
    ensures forall i :: 0 <= i < |r| ==> r[i] == pads[i].0 + parts[i] + pads[i].1
  {
    seq(|parts|, i requires 0 <= i < |parts| => pads[i].0 + parts[i] + pads[i].1)
  }

  /** A reply line: the fields, each padded, joined by `|`. */
  function ServerLine(key: string, rec: ASNRecord, m: Mode, pads: seq<(string, string)>): string
    requires |pads| == BaseIdx(m) + 5
  {
    Join(Padded(ServerFields(key, rec, m), pads), '|')
  }

  predicate CleanField(s: string) {
    Stripped(s) && '|' !in s && '\n' !in s
  }

  predicate CleanToken(t: string) {
    t != [] && NoSpace(t) && '|' !in t
  }

  /** A record the line format can carry in mode `m`. The mode must not be
      the single-query origin mode, whose base offset is 0. */
  predicate WellFormed(key: string, rec: ASNRecord, m: Mode) {
    && BaseIdx(m) >= 1
    && CleanField(rec.asn) && CleanField(rec.prefix) && CleanField(rec.asname)
    && CleanField(rec.cn) && CleanField(rec.isp)
    && (m.batch ==> CleanField(key))
    && (m.peers ==> forall i :: 0 <= i < |rec.peers| ==> CleanToken(rec.peers[i]))
    && (!m.peers ==> rec.peers == [])
  }

  /** Splitting a line joined from padded clean fields on `|` and stripping
      each piece gives the fields back, without their padding. */
  lemma FieldsJoinPadded(parts: seq<string>, pads: seq<(string, string)>)
    requires |parts| >= 1 && |pads| == |parts|
    requires forall i :: 0 <= i < |parts| ==> '|' !in parts[i] && Stripped(parts[i])
    requires WellPadded(pads)
    ensures Fields(Join(Padded(parts, pads), '|')) == parts
  {
    var padded := Padded(parts, pads);
    forall i | 0 <= i < |padded| ensures '|' !in padded[i] {
      assert !IsSpace('|');
    }
    SplitJoin(padded, '|');
    var el := Fields(Join(padded, '|'));
    forall i | 0 <= i < |parts| ensures el[i] == parts[i] {
      StripPadded(pads[i].0, parts[i], pads[i].1);
    }
  }

  lemma ServerFieldsClean(key: string, rec: ASNRecord, m: Mode)
    requires WellFormed(key, rec, m)
    ensures var parts := ServerFields(key, rec, m);
      forall i :: 0 <= i < |parts| ==> '|' !in parts[i] && Stripped(parts[i])
  {
    if m.peers {
      JoinExcludes(rec.peers, ' ', '|');
      JoinWordsStripped(rec.peers);
    }
  }

  /** A line whose stripped fields are a record's server fields parses
      to that record. */
  lemma ParseServerFields(line: string, key: string, rec: ASNRecord, m: Mode)
    requires WellFormed(key, rec, m)
    requires Fields(line) == ServerFields(key, rec, m)
    ensures ParseLine(line, m) == Entry(if m.batch then key else m.queried, rec)
  {
    if m.peers {
      WordsJoin(rec.peers);
      assert ServerFields(key, rec, m)[BaseIdx(m) - 1] == Join(rec.peers, ' ');
    }
  }

  /** Parsing a server line, whatever whitespace surrounds its fields,
      gives back the record it carries, keyed by the address on the line in
      a batch and by the query otherwise. */
  lemma ParseServerLine(key: string, rec: ASNRecord, m: Mode, pads: seq<(string, string)>)
    requires WellFormed(key, rec, m)
    requires |pads| == BaseIdx(m) + 5 && WellPadded(pads)
    ensures ParseLine(ServerLine(key, rec, m, pads), m) == Entry(if m.batch then key else m.queried, rec)
  {
    ServerFieldsClean(key, rec, m);
    FieldsJoinPadded(ServerFields(key, rec, m), pads);
    ParseServerFields(ServerLine(key, rec, m, pads), key, rec, m);
  }

  /** The state of the parsing loop: the dict built so far and the
      exception that stopped it, if any. */
  datatype ParseState = ParseState(entries: map<string, ASNRecord>, failure: Option<Error>)

  /** One line's effect on the loop state; nothing happens after a failure. */
  function Step(st: ParseState, o: LineOutcome): (r: ParseState)
    ensures st.failure.Some? ==> r == st
    ensures st.entries.Keys <= r.entries.Keys
    ensures st.failure.None? && r.failure.Some? ==> o.Arity? && r.failure == Some(RecordArity(o.given))
  {
    if st.failure.Some? then st
    else
      match o
      case Skip => st
      case Entry(k, rec) => ParseState(st.entries[k := rec], None)
      case Arity(n) => ParseState(st.entries, Some(RecordArity(n)))
  }

  /** The loop over the outcomes of successive lines, starting from the
      dict `acc`. */
  function Fold(os: seq<LineOutcome>, acc: map<string, ASNRecord>): (r: ParseState)
    ensures acc.Keys <= r.entries.Keys
    ensures r.failure.None? || r.failure.value.RecordArity?
  {
    if os == [] then ParseState(acc, None)
    else
      var st := Step(ParseState(acc, None), os[0]);
      if st.failure.Some? then st else Fold(os[1..], st.entries)
  }

  function Outcomes(lines: seq<string>, m: Mode): (os: seq<LineOutcome>)
    ensures |os| == |lines|
    ensures forall i :: 0 <= i < |lines| ==> os[i] == ParseLine(lines[i], m)
  {
    seq(|lines|, i requires 0 <= i < |lines| => ParseLine(lines[i], m))
  }

  /** The whole loop: every line of `self.buffer.split('\n')`, from an
      empty dict. */
  function ParseBuffer(buffer: string, m: Mode): (r: ParseState)
    ensures r.failure.None? || r.failure.value.RecordArity?
    ensures !m.batch ==> forall k :: k in r.entries ==> k == m.queried
  {
    var os := Outcomes(Split(buffer, '\n'), m);
    FoldKeysWithin(os, map[], m);
    Fold(os, map[])
  }

  /** Outside a batch every entry is keyed by the query itself. */
  lemma {:induction false} FoldKeysWithin(os: seq<LineOutcome>, acc: map<string, ASNRecord>, m: Mode)
    requires !m.batch ==> forall k :: k in acc ==> k == m.queried
    requires forall i :: 0 <= i < |os| && os[i].Entry? && !m.batch ==> os[i].key == m.queried
    ensures !m.batch ==> forall k :: k in Fold(os, acc).entries ==> k == m.queried
  {
    if os != [] {
      var st := Step(ParseState(acc, None), os[0]);
      if st.failure.None? {
        FoldKeysWithin(os[1..], st.entries, m);
      }
    }
  }

  /** Folding one more outcome is one more Step: the loop's invariant. */
  lemma {:induction false} FoldSnoc(os: seq<LineOutcome>, o: LineOutcome, acc: map<string, ASNRecord>)
    ensures Fold(os + [o], acc) == Step(Fold(os, acc), o)
  {
    if os == [] {
      assert [] + [o] == [o];
    } else {
      assert (os + [o])[1..] == os[1..] + [o];
      var st := Step(ParseState(acc, None), os[0]);
      if st.failure.None? {
        FoldSnoc(os[1..], o, st.entries);
      }
    }
  }

  lemma OutcomesSnoc(lines: seq<string>, line: string, m: Mode)
    ensures Outcomes(lines + [line], m) == Outcomes(lines, m) + [ParseLine(line, m)]
  {
  }

  lemma OutcomesPrefix(lines: seq<string>, k: nat, m: Mode)
    requires k <= |lines|
    ensures Outcomes(lines, m)[..k] == Outcomes(lines[..k], m)
  {
  }

  /** Once the loop has raised, the lines after it are never looked at. */
  lemma {:induction false} FoldStopped(os: seq<LineOutcome>, k: nat, acc: map<string, ASNRecord>)
    requires 0 < k <= |os|
    requires Fold(os[..k], acc).failure.Some?
    ensures Fold(os, acc) == Fold(os[..k], acc)
  {
    var st := Step(ParseState(acc, None), os[0]);
    assert os[..k][0] == os[0];
    if st.failure.None? {
      if k == 1 {
        assert false;
      }
      assert os[..k][1..] == os[1..][..k - 1];
      FoldStopped(os[1..], k - 1, st.entries);
    }
  }

  /** One more line is one more Step of the loop over the lines. */
  lemma FoldLinesSnoc(lines: seq<string>, i: nat, m: Mode)
    requires i < |lines|
    ensures Fold(Outcomes(lines[..i + 1], m), map[])
            == Step(Fold(Outcomes(lines[..i], m), map[]), ParseLine(lines[i], m))
  {
    assert lines[..i + 1] == lines[..i] + [lines[i]];
    OutcomesSnoc(lines[..i], lines[i], m);
    FoldSnoc(Outcomes(lines[..i], m), ParseLine(lines[i], m), map[]);
  }

  /** A loop over the lines that has raised at line `k - 1` is the whole
      loop. */
  lemma FoldLinesStopped(lines: seq<string>, k: nat, m: Mode)
    requires 0 < k <= |lines|
    requires Fold(Outcomes(lines[..k], m), map[]).failure.Some?
    ensures Fold(Outcomes(lines, m), map[]) == Fold(Outcomes(lines[..k], m), map[])
  {
    OutcomesPrefix(lines, k, m);
    FoldStopped(Outcomes(lines, m), k, map[]);
  }

  /** The loop raises exactly when some line has the wrong number of fields
      for an `ASNRecord`. */
  lemma {:induction false} FoldFails(os: seq<LineOutcome>, acc: map<string, ASNRecord>)
    ensures Fold(os, acc).failure.Some? <==> exists i :: 0 <= i < |os| && os[i].Arity?
  {
    if os != [] {
      var st := Step(ParseState(acc, None), os[0]);
      if st.failure.None? {
        FoldFails(os[1..], st.entries);
        if exists i :: 0 <= i < |os| && os[i].Arity? {
          var i :| 0 <= i < |os| && os[i].Arity?;
          assert os[1..][i - 1].Arity?;
        }
        if exists i :: 0 <= i < |os[1..]| && os[1..][i].Arity? {
          var i :| 0 <= i < |os[1..]| && os[1..][i].Arity?;
          assert os[i + 1].Arity?;
        }
      }
    }
  }

  predicate EntryFor(o: LineOutcome, k: string) {
    o.Entry? && o.key == k
  }

  /** Without a failure, the keys of the dict are those of `acc` and those
      of the lines that yield an entry. */
  lemma {:induction false} FoldKeys(os: seq<LineOutcome>, acc: map<string, ASNRecord>)
    requires Fold(os, acc).failure.None?
    ensures forall k :: k in Fold(os, acc).entries
                     <==> k in acc || exists i :: 0 <= i < |os| && EntryFor(os[i], k)
  {
    if os != [] {
      var st := Step(ParseState(acc, None), os[0]);
      FoldKeys(os[1..], st.entries);
      var out := Fold(os, acc).entries;
      forall k ensures k in out <==> k in acc || exists i :: 0 <= i < |os| && EntryFor(os[i], k) {
        if exists i :: 0 <= i < |os[1..]| && EntryFor(os[1..][i], k) {
          var i :| 0 <= i < |os[1..]| && EntryFor(os[1..][i], k);
          assert EntryFor(os[i + 1], k);
        }
        if exists i :: 0 <= i < |os| && EntryFor(os[i], k) {
          var i :| 0 <= i < |os| && EntryFor(os[i], k);
          if i > 0 {
            assert EntryFor(os[1..][i - 1], k);
          }
        }
      }
    }
  }

  lemma {:induction false} FoldUntouched(os: seq<LineOutcome>, acc: map<string, ASNRecord>, k: string)
    requires Fold(os, acc).failure.None?
    requires k in acc
    requires forall j :: 0 <= j < |os| ==> !EntryFor(os[j], k)
    ensures k in Fold(os, acc).entries && Fold(os, acc).entries[k] == acc[k]
  {
    if os != [] {
      var st := Step(ParseState(acc, None), os[0]);
      assert !EntryFor(os[0], k);
      forall j | 0 <= j < |os[1..]| ensures !EntryFor(os[1..][j], k) {
        assert !EntryFor(os[j + 1], k);
      }
      FoldUntouched(os[1..], st.entries, k);
    }
  }

  /** Last write wins: a key holds the record of the last line that yields
      it. */
  lemma {:induction false} FoldLastWins(os: seq<LineOutcome>, acc: map<string, ASNRecord>, i: int)
    requires Fold(os, acc).failure.None?
    requires 0 <= i < |os| && os[i].Entry?
    requires forall j :: i < j < |os| ==> !EntryFor(os[j], os[i].key)
    ensures os[i].key in Fold(os, acc).entries
    ensures Fold(os, acc).entries[os[i].key] == os[i].record
  {
    var st := Step(ParseState(acc, None), os[0]);
    var k := os[i].key;
    if i == 0 {
      forall j | 0 <= j < |os[1..]| ensures !EntryFor(os[1..][j], k) {
        assert !EntryFor(os[j + 1], k);
      }
      FoldUntouched(os[1..], st.entries, k);
    } else {
      forall j | i - 1 < j < |os[1..]| ensures !EntryFor(os[1..][j], k) {
        assert !EntryFor(os[j + 1], k);
      }
      FoldLastWins(os[1..], st.entries, i - 1);
    }
  }

  /** Without an entry among the outcomes the dict stays as it was. */
  lemma {:induction false} FoldNoEntries(os: seq<LineOutcome>, acc: map<string, ASNRecord>)
    requires forall i :: 0 <= i < |os| ==> !os[i].Entry?
    ensures Fold(os, acc).entries == acc
  {
    if os != [] {
      var st := Step(ParseState(acc, None), os[0]);
      if st.failure.None? {
        FoldNoEntries(os[1..], st.entries);
      }
    }
  }

  /** In single-query origin mode the dict always stays empty, and the loop
      raises exactly when some line has six or more fields. */
  lemma SingleOriginNeverCaches(lines: seq<string>, q: string)
    ensures Fold(Outcomes(lines, Mode(false, false, q)), map[]).entries == map[]
    ensures Fold(Outcomes(lines, Mode(false, false, q)), map[]).failure.Some?
            <==> exists i :: 0 <= i < |lines| && |Fields(lines[i])| >= 6
  {
    var m := Mode(false, false, q);
    var os := Outcomes(lines, m);
    forall i | 0 <= i < |os| ensures !os[i].Entry? && (os[i].Arity? <==> |Fields(lines[i])| >= 6) {
      assert os[i] == ParseLine(lines[i], m);
    }
    FoldNoEntries(os, map[]);
    FoldFails(os, map[]);
  }

  lemma ServerLineOneLine(key: string, rec: ASNRecord, m: Mode, pads: seq<(string, string)>)
    requires WellFormed(key, rec, m)
    requires |pads| == BaseIdx(m) + 5 && WellPadded(pads)
    ensures '\n' !in ServerLine(key, rec, m, pads)
  {
    var parts := ServerFields(key, rec, m);
    if m.peers {
      forall i | 0 <= i < |rec.peers| ensures '\n' !in rec.peers[i] {
        assert NoSpace(rec.peers[i]);
      }
      JoinExcludes(rec.peers, ' ', '\n');
    }
    var padded := Padded(parts, pads);
    forall i | 0 <= i < |padded| ensures '\n' !in padded[i] {
      assert '\n' !in parts[i];
    }
    JoinExcludes(padded, '|', '\n');
  }

  lemma FoldOne(k: string, rec: ASNRecord)
    ensures Fold([Entry(k, rec)], map[]) == ParseState(map[k := rec], None)
  {
  }

  lemma OutcomesOne(line: string, m: Mode)
    ensures Outcomes([line], m) == [ParseLine(line, m)]
  {
  }

  /** A reply of one well-formed server line parses to the one-entry dict
      holding its record. */
  lemma ParseOneLine(key: string, rec: ASNRecord, m: Mode, pads: seq<(string, string)>)
    requires WellFormed(key, rec, m)
    requires |pads| == BaseIdx(m) + 5 && WellPadded(pads)
    ensures ParseBuffer(ServerLine(key, rec, m, pads), m)
            == ParseState(map[(if m.batch then key else m.queried) := rec], None)
  {
    var line := ServerLine(key, rec, m, pads);
    ServerLineOneLine(key, rec, m, pads);
    SplitNoSep(line, '\n');
    ParseServerLine(key, rec, m, pads);
    OutcomesOne(line, m);
    FoldOne(if m.batch then key else m.queried, rec);
  }

  /** The record the peer-mode lookup of 212.58.245.94 expects. */
  const BbcRecord := ASNRecord("2818", "212.58.224.0/19", "BBC", "GB",
                               "BBC Internet Services, UK, GB", ["286", "1299", "3356"])

  const BbcMode := Mode(false, true, "212.58.245.94")

  /** One space on each side of every `|`, as in "286 1299 3356 | 2818 | ...". */
  const BbcPads: seq<(string, string)> := [("", " "), (" ", " "), (" ", " "), (" ", " "), (" ", " "), (" ", "")]

  lemma BbcFieldsClean()
    ensures CleanField("2818") && CleanField("212.58.224.0/19") && CleanField("BBC")
    ensures CleanField("GB") && CleanField("BBC Internet Services, UK, GB")
  {
    assert CleanField("2818");
    assert CleanField("212.58.224.0/19");
    assert CleanField("BBC");
    assert CleanField("GB");
    assert CleanField("BBC Internet Services, UK, GB");
  }

  lemma BbcPeersClean()
    ensures forall i :: 0 <= i < |BbcRecord.peers| ==> CleanToken(BbcRecord.peers[i])
  {
  }

  lemma BbcPadsWell()
    ensures |BbcPads| == 6 && WellPadded(BbcPads)
  {
    assert Padding(" ") && Padding("");
  }

  /** A one-line peer-mode reply carrying BbcRecord, a space on each side
      of every separator, parses to the dict `{"212.58.245.94": BbcRecord}`. */
  lemma BbcReply()
    ensures ParseBuffer(ServerLine("", BbcRecord, BbcMode, BbcPads), BbcMode)
            == ParseState(map["212.58.245.94" := BbcRecord], None)
  {
    BbcFieldsClean();
    BbcPeersClean();
    BbcPadsWell();
    ParseOneLine("", BbcRecord, BbcMode, BbcPads);
  }
}
