# RashlyOutlaid ASN lookups, modelled in Dafny

RashlyOutlaid is a Python client for the Shadowserver ASN service. It has two halves:

- **`libwhois.py`** speaks the service's WHOIS line protocol over TCP port 43.
  - `ASNWhois` holds a query (one IPv4 address or a list of them) and a peer-mode flag.
  - It sends `origin <addr>` / `peer <addr>`, or a `begin …` / addresses / `end` batch. Every line ends in a bare line feed.
  - It reads the reply to the end of the stream.
  - It parses the `|`-separated reply lines into a dict from address to `ASNRecord`, and caches that dict until `query` or `peers` is assigned again.
- **`api.py`** asks the same service over HTTPS.
  - It builds the request URL and rejects any status other than 200.
  - It maps the decoded JSON objects to `ASNRecord`s.

The model has five modules:

- `Wrappers`: `Option` and `Result`.
- `PyText`: the Python string operations the client relies on, namely `str.strip`, `str.split(sep)`, `str.split()`, `sep.join`, `int(...)` and `str(int)`, each with the lemmas that relate them.
- `Protocol`: the value-level logic of `libwhois.py`:
  - the query shapes and the errors;
  - the set of strings `is_ip` accepts (`ValidAddress`);
  - what a lookup puts on the wire (`Plan`);
  - the parsing loop of `get_result` (`ParseLine`, `Fold`, `ParseBuffer`);
  - an independent decoder of the wire format (`DecodeRequest`) and the server's line format (`ServerLine`, fields joined by `|` with whitespace around each), which round-trip lemmas connect to the encoder and the parser.
- `LibWhois`: the stateful part of `libwhois.py`:
  - the `is_ip` loop as a method;
  - class `Whois` with the socket replaced by a log (connected flag, connection count, the strings sent, and the buffer that `read` fills from a sequence of received chunks);
  - class `ASNWhois` with the properties, the result cache, `_perform_query`, `_query_single`, `_query_multiple` and `get_result`.
- `Api`: `_map_shadowserver_model`, the four URLs, and the `origin`, `peer`, `asn` and `prefix` lookups. Each lookup takes the response's status and decoded body.

Behaviour kept as the code has it:

- **`is_ip` and octet 0.** Line 155 of `libwhois.py` compares the loop index, not the value, with 256 for octet 0. So the first octet must be at least 1 and has no upper bound: `"999.1.1.1"` is accepted (`Protocol.FirstOctetUnbounded`). The usual IPv4 range for octet 0, 1–255, would reject it; the model follows the code.
- **Record arity.** `ASNRecord` takes exactly six values. A reply line with at least six fields therefore builds a record only when it has `_base_idx + 5` fields. Any other such line raises `TypeError` (`RecordArity` in the model). In single-query origin mode (`_base_idx` is 0) every such line raises, so that mode never yields an entry (`Protocol.SingleOriginNeverCaches`).
- **Partial results.** When a line raises part-way, the entries already inserted stay in `_result`.
- **Empty results are not cached.** A result dict that ends up empty is recomputed on the next read, because `get_result` treats an empty `_result` as "no cache".
- **Inheritance.** `ASNWhois` inherits from `Whois` in the source. Here it holds its transport as the field `conn`.
- **Exceptions.** An exception is an `Error` value returned in place of the result.

## Model

| member | source | states |
|---|---|---|
| LibWhois.IsIp | RashlyOutlaid/libwhois.py:148-158 | the loop over the four parts with its early returns answers exactly `ValidAddress(data)`: strip, split on `.`, exactly four parts, each an integer, octets 1-3 in 0..255, octet 0 at least 1 |
| Protocol.DottedQuad | RashlyOutlaid/libwhois.py:148-158 | a dotted quad of decimal numbers a.b.c.d passes `is_ip` if and only if a >= 1 and b, c, d < 256; there is no upper bound on a |
| Protocol.OctetsOfDecimals | RashlyOutlaid/libwhois.py:155 | the per-octet test on decimal text: octet 0 needs only >= 1, the others need < 256 |
| Protocol.OctetOfDecimal | RashlyOutlaid/libwhois.py:154-155 | one decimal part passes its octet's test exactly when its value is in that octet's range |
| Protocol.FirstOctetUnbounded | RashlyOutlaid/libwhois.py:155 | `is_ip("999.1.1.1")` holds, because octet 0 is compared by position rather than value |
| Protocol.FirstOctetNotZero | RashlyOutlaid/libwhois.py:155 | `is_ip("0.1.2.3")` is false |
| Protocol.TooFewParts | RashlyOutlaid/libwhois.py:151 | `is_ip("1.2.3")` is false: it is rejected, not raised on |
| Protocol.ValidAddressPadded | RashlyOutlaid/libwhois.py:150 | `is_ip` gives the same answer for an address with or without whitespace around it |
| Protocol.NewlineAddressUnreadable | RashlyOutlaid/libwhois.py:120-127 | `is_ip("1.2.3.4\n")` holds, so the lookup sends `origin 1.2.3.4\n\n`, which the server cannot read as a request |
| Protocol.DottedSplit | RashlyOutlaid/libwhois.py:150 | `strip().split(".")` of a dotted quad gives back its four decimal parts |
| Protocol.EndNotAddress | RashlyOutlaid/libwhois.py:136-140 | the batch terminator `end` never passes `is_ip` |
| Protocol.ValidNotEnd | RashlyOutlaid/libwhois.py:136-140 | an address that passes `is_ip` is not the terminator line |
| PyText.ParseIntToString | RashlyOutlaid/libwhois.py:154 | `int(str(i)) == i` for every integer, negative ones included |
| PyText.ValueOfDecimal | RashlyOutlaid/libwhois.py:154 | the decimal text of n consists of digits and reads back as n |
| PyText.SplitJoin | RashlyOutlaid/libwhois.py:150 | `sep.join(parts).split(sep) == parts` when no part holds `sep` |
| PyText.JoinSplit | RashlyOutlaid/libwhois.py:150 | `sep.join(s.split(sep)) == s` |
| PyText.WordsJoin | RashlyOutlaid/api.py:115 | `" ".join(tokens).split()` gives back non-empty whitespace-free tokens |
| PyText.StripPadded | RashlyOutlaid/libwhois.py:74 | `strip()` removes exactly the leading and trailing whitespace around a core that starts and ends with a non-space; the parser's and `is_ip`'s tolerance of padding (`FieldsJoinPadded`, `ValidAddressPadded`) rests on it |
| PyText.StripStripped | RashlyOutlaid/libwhois.py:150 | `strip()` leaves a string without surrounding whitespace unchanged |
| LibWhois.ReceivedAll | RashlyOutlaid/libwhois.py:44-51 | when no chunk is empty the buffer is all chunks concatenated |
| LibWhois.ReceivedStopsAtClose | RashlyOutlaid/libwhois.py:48-50 | nothing after the first empty chunk reaches the buffer |
| LibWhois.Whois.constructor | RashlyOutlaid/libwhois.py:31-36 | stores address, port and timeout; no connection, nothing sent, empty buffer |
| LibWhois.Whois.Connect | RashlyOutlaid/libwhois.py:38-39 | opens one connection; log and buffer unchanged |
| LibWhois.Whois.Send | RashlyOutlaid/libwhois.py:41-42 | appends exactly the query followed by a line feed to what was sent |
| LibWhois.Whois.Close | RashlyOutlaid/libwhois.py:49 | closes the connection; nothing else changes |
| LibWhois.Whois.Read | RashlyOutlaid/libwhois.py:44-51 | resets the buffer, accumulates the chunks up to the first empty one, then closes the connection |
| LibWhois.ASNWhois.constructor | RashlyOutlaid/libwhois.py:56-62 | a client for the given server, by default `asn.shadowserver.org`, port 43, timeout 30, with a fresh unconnected transport, empty query, empty cache, peer mode off, not a batch, base 0 |
| LibWhois.DefaultClient | RashlyOutlaid/libwhois.py:56-62 | `ASNWhois()` with no arguments talks to `asn.shadowserver.org` on port 43 with a 30-second timeout, and has nothing queried or cached and peer mode off |
| LibWhois.ASNWhois.SetQuery | RashlyOutlaid/libwhois.py:102-104 | the query is stored unvalidated and the cache is dropped; peers untouched |
| LibWhois.ASNWhois.GetQuery | RashlyOutlaid/libwhois.py:117-118 | returns the stored query |
| LibWhois.ASNWhois.SetPeers | RashlyOutlaid/libwhois.py:93-97 | a non-bool raises and leaves peers and cache as they were; a bool is stored and drops the cache |
| LibWhois.ASNWhois.GetPeers | RashlyOutlaid/libwhois.py:99-100 | returns the peer-mode flag |
| LibWhois.ASNWhois.SetResult | RashlyOutlaid/libwhois.py:90-91 | assigning `result` always raises the read-only error |
| LibWhois.ASNWhois.QuerySingle | RashlyOutlaid/libwhois.py:120-127 | an address failing `is_ip` raises before any connection; otherwise exactly one connection and one line `peer q` / `origin q` (q unstripped) plus line feed, then the buffer is the reply |
| LibWhois.ASNWhois.Begin | RashlyOutlaid/libwhois.py:130-134 | connects and sends `begin peer` or `begin origin` |
| LibWhois.ASNWhois.SendAddresses | RashlyOutlaid/libwhois.py:135-139 | sends the addresses in order and stops at the first that fails `is_ip`, returning its position |
| LibWhois.ASNWhois.QueryMultiple | RashlyOutlaid/libwhois.py:129-141 | connects first and sends the begin line, then the addresses; at the first invalid one the connection is closed, the error raised, the earlier addresses already sent and `end` never sent; otherwise `end` is sent and the reply read |
| LibWhois.ASNWhois.PerformQuery | RashlyOutlaid/libwhois.py:106-115 | an empty query (`""`, `[]`, falsy) or a non-string non-list raises with nothing sent and no connection; otherwise sets `_multiple` and sends what `Plan` says |
| LibWhois.ASNWhois.GetResult | RashlyOutlaid/libwhois.py:64-88 | a non-empty cached dict is returned with no connection and nothing sent; otherwise the query is performed, `_base_idx` set to batch + peers, and the cache becomes the dict parsed from the reply, including the entries before a line that raises |
| LibWhois.ASNWhois.ParseReply | RashlyOutlaid/libwhois.py:72-87 | the loop over the buffer's lines builds exactly `ParseBuffer(buffer)`: its dict and the error that stopped it |
| LibWhois.ASNWhois.GetResultTwice | RashlyOutlaid/libwhois.py:65-66 | after the cache was dropped, a non-empty result is served from the cache on the second read with no second connection; an empty one is recomputed with a second connection |
| Protocol.Plan | RashlyOutlaid/libwhois.py:106-141 | connects exactly for a non-empty valid address or a non-empty list; nothing is sent without a connection; an empty query raises the empty-query error, a non-empty value of another type the string-or-list error, and a non-empty single address failing `is_ip` the not-an-address error naming it; a successful lookup ends with its single line or with `end` |
| Protocol.BatchAbort | RashlyOutlaid/libwhois.py:135-140 | a batch with an invalid address raises on that address, has sent the begin line and the earlier addresses, and never sends `end` |
| Protocol.NoEndFrame | RashlyOutlaid/libwhois.py:132-139 | the begin line and addresses other than `end` never put the terminator on the wire |
| Protocol.FrameInjective | RashlyOutlaid/libwhois.py:41-42 | two different lines are sent as different strings |
| Protocol.SingleRoundTrip | RashlyOutlaid/libwhois.py:123-126 | the server decodes the single line back into the query and its mode, for a query without a line feed |
| Protocol.BatchRoundTrip | RashlyOutlaid/libwhois.py:131-140 | the server decodes the batch lines back into the address list and its mode |
| Protocol.BatchLines | RashlyOutlaid/libwhois.py:131-140 | the concatenated batch, split on line feeds, gives the begin line, the addresses and `end` |
| Protocol.ConcatFrames | RashlyOutlaid/libwhois.py:41-42 | the concatenation of framed lines is the lines joined by line feeds with a final line feed |
| Protocol.FramesAppend | RashlyOutlaid/libwhois.py:41-42 | framing distributes over concatenation of line lists |
| Protocol.PlanSingle | RashlyOutlaid/libwhois.py:120-127 | a successful single lookup sends exactly its one framed line |
| Protocol.PlanBatchSent | RashlyOutlaid/libwhois.py:129-141 | a successful batch sends exactly the framed begin line, addresses and `end` |
| Protocol.PlanRoundTrip | RashlyOutlaid/libwhois.py:106-141 | whatever a successful lookup sends, the server decodes back into the same query and peer mode, when no address holds a line feed |
| Protocol.Frames | RashlyOutlaid/libwhois.py:41-42 | each line is sent followed by exactly one line feed, in order |
| Protocol.FirstFailing | RashlyOutlaid/libwhois.py:135-138 | the returned position is the first element the test rejects: all before it pass, the one at it fails |
| Protocol.Fields | RashlyOutlaid/libwhois.py:74 | one stripped field per `|`-separated piece of the line |
| Protocol.ParseLine | RashlyOutlaid/libwhois.py:74-87 | a line with fewer than 6 fields is skipped; an entry exactly when base >= 1 and there are base + 5 fields; otherwise the record constructor raises on the wrong number of values |
| Protocol.ParseServerLine | RashlyOutlaid/libwhois.py:74-87 | a server line built from a record, with any whitespace other than a line feed around each field, parses back to that record: the stripped tail, peers from the whitespace split, keyed by the line's address in a batch and by the query otherwise |
| Protocol.ParseServerFields | RashlyOutlaid/libwhois.py:75-87 | a line whose stripped fields are a record's server fields yields that record under the right key |
| Protocol.FieldsJoinPadded | RashlyOutlaid/libwhois.py:74 | splitting on `|` a line joined from clean fields, each with whitespace before and after it, and stripping each piece gives the fields back without the whitespace |
| Protocol.ParseOneLine | RashlyOutlaid/libwhois.py:72-88 | a one-line reply, however its fields are padded, parses to the one-entry dict holding its record |
| Protocol.BbcReply | RashlyOutlaid/tests.py:8-24 | the peer-mode reply for 212.58.245.94, with a space on each side of every `|`, yields asn 2818, prefix 212.58.224.0/19, BBC, GB and peers 286, 1299, 3356 under that address |
| Protocol.FoldSnoc | RashlyOutlaid/libwhois.py:73-87 | the loop over one more line is one more step of the loop |
| Protocol.FoldLinesSnoc | RashlyOutlaid/libwhois.py:73-87 | the same, for the lines of the buffer |
| Protocol.FoldStopped | RashlyOutlaid/libwhois.py:87 | once a line raises, the later lines are never looked at |
| Protocol.FoldLinesStopped | RashlyOutlaid/libwhois.py:87 | the same, for the lines of the buffer |
| Protocol.FoldFails | RashlyOutlaid/libwhois.py:75-87 | the loop raises exactly when some line has six or more fields but the wrong number for a record |
| Protocol.FoldKeys | RashlyOutlaid/libwhois.py:87 | without an error, the dict's keys are exactly the keys of the lines that yield an entry |
| Protocol.FoldUntouched | RashlyOutlaid/libwhois.py:87 | a key no later line yields keeps its record |
| Protocol.FoldLastWins | RashlyOutlaid/libwhois.py:87 | a key holds the record of the last line that yields it |
| Protocol.FoldNoEntries | RashlyOutlaid/libwhois.py:75-87 | lines that yield no entry leave the dict unchanged |
| Protocol.SingleOriginNeverCaches | RashlyOutlaid/libwhois.py:67-87 | in single-query origin mode the dict stays empty, and the loop raises exactly when some line has six or more fields |
| Protocol.ServerLineOneLine | RashlyOutlaid/libwhois.py:73 | a well-formed server line whose padding holds no line feed contains no line feed |
| Api.MapRecord | RashlyOutlaid/api.py:110-115 | succeeds exactly when `asn`, `asname_short`, `geo` and `asname_long` are all present, otherwise raises on the first missing one in that order; asn, asname, cn and isp are the values of `asn`, `asname_short`, `geo` and `asname_long`; prefix is `''` when absent; peers are the whitespace split of `peer`, or empty |
| Api.MapAll | RashlyOutlaid/api.py:110-116 | the list comprehension over a mapping that may raise: the results of all elements in order and of the same length, or exactly when some element raises, the exception of the first one that does |
| Api.MapModel | RashlyOutlaid/api.py:107-116 | the records of all objects in order and of the same length, each the mapping of its object; fails exactly when some object fails, with the first failure |
| Api.MapRecordJson | RashlyOutlaid/api.py:110-115 | a record sent as its JSON object maps back to itself |
| Api.MapRecordDefaults | RashlyOutlaid/api.py:111-115 | an object without `prefix` and `peer` maps to an empty prefix and no peers |
| Api.UrlParamLookup | RashlyOutlaid/api.py:132-133 | the service reads the value back from a lookup URL |
| Api.OriginUrlAddresses | RashlyOutlaid/api.py:132-133 | the origin URL carries the address list joined by commas, which the service splits back into the list |
| Api.PeerUrlAddresses | RashlyOutlaid/api.py:159-160 | the peer URL carries the address list joined by commas, which the service splits back into the list |
| Api.AsnUrlNumber | RashlyOutlaid/api.py:186-187 | the asn URL carries the number after `query=`, which reads back as the number |
| Api.PrefixUrlNumber | RashlyOutlaid/api.py:212-213 | the prefix URL carries the number after `prefix=`, which reads back as the number |
| Api.Origin | RashlyOutlaid/api.py:132-143 | a status other than 200 raises with the URL and status before the body is used; otherwise the mapped body, one record per object |
| Api.Peer | RashlyOutlaid/api.py:159-171 | a status other than 200 raises with the URL and status; otherwise the mapped body, one record per object |
| Api.Asn | RashlyOutlaid/api.py:186-197 | a status other than 200 raises; a success holds exactly one record, the mapping of the single object |
| Api.Prefix | RashlyOutlaid/api.py:212-223 | a status other than 200 raises; otherwise the decoded list is returned unchanged |
| Protocol.ValidAddress | RashlyOutlaid/libwhois.py:148-158 | the strings `is_ip` accepts: after `strip()`, exactly four `.`-separated parts, each an integer, octet 0 at least 1 and octets 1-3 in 0..255; its properties are stated by `DottedQuad` and the lemmas beside it |
| Protocol.Frame | RashlyOutlaid/libwhois.py:41-42 | what `send` writes: the line itself followed by exactly one line feed |
| Protocol.SingleLine | RashlyOutlaid/libwhois.py:123-126 | the single-query line ends with the query, unstripped, and starts with `peer ` exactly in peer mode and with `origin ` exactly outside it |
| Protocol.BeginLine | RashlyOutlaid/libwhois.py:131-134 | the batch opening line is never the terminator, and is `begin peer` exactly in peer mode |
| Protocol.BaseIdx | RashlyOutlaid/libwhois.py:67-71 | `_base_idx` is at most 2, and at least 1 exactly for a batch or in peer mode |
| Protocol.Step | RashlyOutlaid/libwhois.py:74-87 | one line's effect on the loop: nothing changes after an exception, keys are never removed, and a new exception is the arity error of the line's record |
| Protocol.Fold | RashlyOutlaid/libwhois.py:73-87 | the loop over the lines keeps every key it starts with, and the only exception it raises is the record-arity one |
| Protocol.ParseBuffer | RashlyOutlaid/libwhois.py:72-87 | parsing the buffer can only fail with the record-arity error, and outside a batch every key of the dict is the query itself |
| Protocol.FoldKeysWithin | RashlyOutlaid/libwhois.py:84-87 | outside a batch, when every line's entry is keyed by the query, so is every key of the dict |
| LibWhois.Received | RashlyOutlaid/libwhois.py:44-51 | the buffer is empty exactly when no chunk arrives or the first is empty, and otherwise starts with the first chunk |
| LibWhois.MultipleAfter | RashlyOutlaid/libwhois.py:106-115 | `_multiple` after `_perform_query`: false for a non-empty string, true for a non-empty list, unchanged for an empty or other query |
| Api.OriginUrl | RashlyOutlaid/api.py:132-133 | the origin URL starts with the service's base URL and carries the addresses joined by commas as its `origin` parameter |
| Api.PeerUrl | RashlyOutlaid/api.py:159-160 | the peer URL starts with the service's base URL and carries the addresses joined by commas as its `peer` parameter |
| Api.AsnUrl | RashlyOutlaid/api.py:186-187 | the asn URL starts with the service's base URL and carries `str(asnumber)` as its `query` parameter |
| Api.PrefixUrl | RashlyOutlaid/api.py:212-213 | the prefix URL starts with the service's base URL and carries `str(asnumber)` as its `prefix` parameter |
| PyText.Split | RashlyOutlaid/libwhois.py:150 | `s.split(sep)` yields at least one piece and no piece holds the separator; `JoinSplit` and `SplitJoin` tie it to `Join` |
| PyText.Strip | RashlyOutlaid/libwhois.py:150 | `s.strip()`: drops the leading and trailing whitespace; its properties are `StripPadded` and `StripStripped` |
| PyText.Words | RashlyOutlaid/api.py:115 | `s.split()` yields non-empty tokens without whitespace, the first starting with the string's first character when that is not whitespace; `WordsJoin` is its round trip |
| PyText.Join | RashlyOutlaid/api.py:133 | `sep.join(parts)`: the parts with the separator between neighbours; its round trips with `Split` are `JoinSplit` and `SplitJoin` |
| PyText.ParseInt | RashlyOutlaid/libwhois.py:154 | `int(t)`: surrounding whitespace, an optional sign and decimal digits, `None` where Python raises `ValueError`; `ParseIntToString` is its round trip |
| PyText.IntToString | RashlyOutlaid/api.py:187 | `str(i)`: the digits of a non-negative number, a minus sign before the digits of a negative one |

## Left out

- Sockets are replaced by a log. `socket.create_connection`, the timeout, connection errors and the 1024-byte size of `recv` are not modelled. `send` writes with `socket.send`, which may write only part of a line; `Whois.Send` always appends the whole line. `read` takes the sequence of received chunks, and running out of chunks ends the stream like an empty chunk.
- Bytes are not modelled. The wire is text, so byte/`str`/`unicode` conversions do not appear.
- Python 2 and 3 type checks are collapsed into the `Query` datatype.
  - `isinstance(..., unicode)` raises `NameError` under Python 3; this is not modelled.
  - `is_ip` on a non-string returns false; the model's addresses are always strings.
  - A list holding non-strings is not modelled.
- `int()` is modelled as: optional surrounding ASCII whitespace, an optional sign, and at least one ASCII digit. Three leniencies are not modelled: Python 3's underscores, Python 2's whitespace after the sign, and non-ASCII digits.
- `strip()`, `split()` and `int()` skip only the six characters space, \t, \n, \r, \v and \f. The other characters Python 3 counts as whitespace are not modelled: U+001C to U+001F and the Unicode spaces.
- `requests.get` and `res.json()` are not modelled. A lookup takes the response status and the decoded body.
  - JSON values are taken to be strings.
  - A body of the wrong shape is not modelled.
  - The keyword arguments passed through to `requests` are not modelled.
- `parse_shadowserver_time` and `malware` in `api.py` are not modelled. They depend on `datetime.strptime`.
- setup.py and the test files are not part of this model. The tests serve only as evidence for the contracts.
- Protocol.PlanRoundTrip, Protocol.SingleRoundTrip: proved only for queries and batch addresses without a line feed. `is_ip` strips its argument, so `"1.2.3.4\n"` passes it, and its line feed breaks the one-line framing of single and batch requests alike (`Protocol.NewlineAddressUnreadable`).
- Api.AsnUrl, Api.PrefixUrl: the number is taken to be an integer. `test_api_asn.py` passes a string, which Python formats identically.
