/** Rows of the two tables of the sending service: `servernameevent_data` (queued) and
    `servercurrentevent_data` (active). A key is the destination's prefix followed by the
    pdu id or by a big-endian count; the value is empty for a PDU and the JSON for an EDU.
 */
module SendingKeys {
  import opened ByteStrings
  import opened KvTable
  import opened Text

  datatype OutgoingKind =
    | Appservice(id: Bytes)
    | Push(user: Bytes, pushkey: Bytes)
    | Normal(server: Bytes)

  datatype Event = Pdu(id: Bytes) | Edu(json: Bytes)

  const PLUS: byte := 0x2b   // '+'
  const DOLLAR: byte := 0x24 // '$'

  /** What the key layout needs from `ServerName::parse`: a server name begins with a letter,
      a digit or a bracket, in particular not with a destination marker. */
  predicate ValidServerName(s: Bytes) {
    s != [] && s[0] != PLUS && s[0] != DOLLAR
  }

  /** What `UserId::parse` accepts, as far as this model looks into user ids: `@local:server`. */
  predicate ValidUserId(s: Bytes) {
    s != [] && s[0] == 0x40 && 0x3a in s
  }

  predicate ValidKind(kind: OutgoingKind) {
    match kind
    case Appservice(id) => IsText(id)
    case Push(user, pushkey) => IsText(user) && ValidUserId(user) && IsText(pushkey)
    case Normal(server) => IsText(server) && ValidServerName(server)
  }

  /** `OutgoingKind::get_prefix`. */
  function Prefix(kind: OutgoingKind): (p: Bytes)
    ensures p != []
  {
    match kind
    case Appservice(id) => [PLUS] + id + [SEP]
    case Push(user, pushkey) => [DOLLAR] + user + [SEP] + pushkey + [SEP]
    case Normal(server) => server + [SEP]
  }

  /** The event a row holds, given the bytes after the prefix. */
  function RowEvent(suffix: Bytes, value: Bytes): (e: Event) {
    if value == [] then Pdu(suffix) else Edu(value)
  }

  function ParseAppservice(key: Bytes, value: Bytes): (r: Option<(OutgoingKind, Event)>)
  {
    var (server, event) := SplitFirst(key);
    if event.None? || !IsText(server) then None
    else Some((Appservice(server), RowEvent(event.value, value)))
  }

  function ParsePush(key: Bytes, value: Bytes): (r: Option<(OutgoingKind, Event)>)
  {
    var (user, rest) := SplitFirst(key);
    if !IsText(user) || !ValidUserId(user) || rest.None? then None else
      var (pushkey, event) := SplitFirst(rest.value);
      if !IsText(pushkey) || event.None? then None
      else Some((Push(user, pushkey), RowEvent(event.value, value)))
  }

  function ParseNormal(key: Bytes, value: Bytes): (r: Option<(OutgoingKind, Event)>)
  {
    var (server, event) := SplitFirst(key);
    if event.None? || !IsText(server) || !ValidServerName(server) then None
    else Some((Normal(server), RowEvent(event.value, value)))
  }

  /** `parse_servercurrentevent`. */
  function Parse(key: Bytes, value: Bytes): (r: Option<(OutgoingKind, Event)>)
  {
    if key != [] && key[0] == PLUS then ParseAppservice(key[1..], value)
    else if key != [] && key[0] == DOLLAR then ParsePush(key[1..], value)
    else ParseNormal(key, value)
  }

  // ------------------------------------------------------------------
  // Parsing undoes prefixing
  // ------------------------------------------------------------------

  /** Which arm the first byte selects. */
  lemma ParseArm(x: Bytes, value: Bytes)
    ensures Parse([PLUS] + x, value) == ParseAppservice(x, value)
    ensures Parse([DOLLAR] + x, value) == ParsePush(x, value)
    ensures x != [] && x[0] != PLUS && x[0] != DOLLAR ==> Parse(x, value) == ParseNormal(x, value)
  {
  }

  lemma ParseAppserviceRow(id: Bytes, suffix: Bytes, value: Bytes)
    requires IsText(id)
    ensures ParseAppservice(id + [SEP] + suffix, value) == Some((Appservice(id), RowEvent(suffix, value)))
  {
    TextHasNoSep(id);
    SplitJoin(id, suffix);
  }

  lemma ParsePushRow(user: Bytes, pushkey: Bytes, suffix: Bytes, value: Bytes)
    requires IsText(user) && ValidUserId(user) && IsText(pushkey)
    ensures ParsePush(user + [SEP] + (pushkey + [SEP] + suffix), value) ==
            Some((Push(user, pushkey), RowEvent(suffix, value)))
  {
    TextHasNoSep(user);
    TextHasNoSep(pushkey);
    SplitJoin(user, pushkey + [SEP] + suffix);
    SplitJoin(pushkey, suffix);
  }

  lemma ParseNormalRow(server: Bytes, suffix: Bytes, value: Bytes)
    requires IsText(server) && ValidServerName(server)
    ensures ParseNormal(server + [SEP] + suffix, value) == Some((Normal(server), RowEvent(suffix, value)))
  {
    TextHasNoSep(server);
    SplitJoin(server, suffix);
  }

  lemma AppserviceKey(id: Bytes, suffix: Bytes)
    ensures Prefix(Appservice(id)) + suffix == [PLUS] + (id + [SEP] + suffix)
  {
  }

  lemma PushKey(user: Bytes, pushkey: Bytes, suffix: Bytes)
    ensures Prefix(Push(user, pushkey)) + suffix == [DOLLAR] + (user + [SEP] + (pushkey + [SEP] + suffix))
  {
  }

  /** Parsing undoes prefixing, for any bytes after the prefix (0xff included). */
  lemma ParsePrefixed(kind: OutgoingKind, suffix: Bytes, value: Bytes)
    requires ValidKind(kind)
    ensures Parse(Prefix(kind) + suffix, value) == Some((kind, RowEvent(suffix, value)))
  {
    match kind {
      case Appservice(id) =>
        AppserviceKey(id, suffix);
        ParseArm(id + [SEP] + suffix, value);
        ParseAppserviceRow(id, suffix, value);
      case Push(user, pushkey) =>
        PushKey(user, pushkey, suffix);
        ParseArm(user + [SEP] + (pushkey + [SEP] + suffix), value);
        ParsePushRow(user, pushkey, suffix, value);
      case Normal(server) =>
        assert (server + [SEP] + suffix)[0] == server[0];
        ParseArm(server + [SEP] + suffix, value);
        ParseNormalRow(server, suffix, value);
    }
  }

  /** Splits of the three arms, put together again. */
  lemma AppserviceSplit(x: Bytes, value: Bytes) returns (suffix: Bytes)
    requires ParseAppservice(x, value).Some?
    ensures var (kind, event) := ParseAppservice(x, value).value;
            ValidKind(kind) && event == RowEvent(suffix, value) && [PLUS] + x == Prefix(kind) + suffix
  {
    var (server, event) := SplitFirst(x);
    suffix := event.value;
    AppserviceKey(server, suffix);
  }

  lemma PushSplit(x: Bytes, value: Bytes) returns (suffix: Bytes)
    requires ParsePush(x, value).Some?
    ensures var (kind, event) := ParsePush(x, value).value;
            ValidKind(kind) && event == RowEvent(suffix, value) && [DOLLAR] + x == Prefix(kind) + suffix
  {
    var (user, rest) := SplitFirst(x);
    var (pushkey, event) := SplitFirst(rest.value);
    suffix := event.value;
    PushKey(user, pushkey, suffix);
  }

  lemma NormalSplit(x: Bytes, value: Bytes) returns (suffix: Bytes)
    requires ParseNormal(x, value).Some?
    ensures var (kind, event) := ParseNormal(x, value).value;
            ValidKind(kind) && event == RowEvent(suffix, value) && x == Prefix(kind) + suffix
  {
    var (server, event) := SplitFirst(x);
    suffix := event.value;
  }

  /** A row that parses lies under the prefix of the destination it parses to. */
  lemma ParseIsPrefixed(key: Bytes, value: Bytes) returns (suffix: Bytes)
    requires Parse(key, value).Some?
    ensures var (kind, event) := Parse(key, value).value;
            ValidKind(kind) && key == Prefix(kind) + suffix && event == RowEvent(suffix, value)
  {
    if key != [] && key[0] == PLUS {
      assert key == [PLUS] + key[1..];
      suffix := AppserviceSplit(key[1..], value);
    } else if key != [] && key[0] == DOLLAR {
      assert key == [DOLLAR] + key[1..];
      suffix := PushSplit(key[1..], value);
    } else {
      suffix := NormalSplit(key, value);
    }
  }

  /** The prefix of a destination holds exactly the keys that parse to it. */
  lemma PrefixIffParse(kind: OutgoingKind, key: Bytes, value: Bytes)
    requires ValidKind(kind)
    ensures Prefix(kind) <= key <==> Parse(key, value).Some? && Parse(key, value).value.0 == kind
  {
    if Prefix(kind) <= key {
      assert key == Prefix(kind) + key[|Prefix(kind)|..];
      ParsePrefixed(kind, key[|Prefix(kind)|..], value);
    }
    if Parse(key, value).Some? {
      var suffix := ParseIsPrefixed(key, value);
    }
  }

  /** The stored layout, byte for byte. */
  ghost predicate KeyFor(kind: OutgoingKind, suffix: Bytes, key: Bytes) {
    match kind
    case Appservice(id) => key == [0x2b] + id + [0xff] + suffix
    case Push(user, pushkey) => key == [0x24] + user + [0xff] + pushkey + [0xff] + suffix
    case Normal(server) => key == server + [0xff] + suffix
  }

  /** A key parses to a destination and an event exactly when it has their layout. */
  lemma ParseExact(key: Bytes, value: Bytes, kind: OutgoingKind, event: Event)
    ensures Parse(key, value) == Some((kind, event)) <==>
      ValidKind(kind) && exists suffix :: KeyFor(kind, suffix, key) && event == RowEvent(suffix, value)
  {
    if Parse(key, value) == Some((kind, event)) {
      var suffix := ParseIsPrefixed(key, value);
      assert KeyFor(kind, suffix, key);
    }
    if ValidKind(kind) && exists suffix :: KeyFor(kind, suffix, key) && event == RowEvent(suffix, value) {
      var suffix :| KeyFor(kind, suffix, key) && event == RowEvent(suffix, value);
      assert key == Prefix(kind) + suffix;
      ParsePrefixed(kind, suffix, value);
    }
  }

  /** Destination and suffix are determined by the key, so prefixes never overlap. */
  lemma SuffixUnique(kind: OutgoingKind, kind': OutgoingKind, x: Bytes, x': Bytes)
    requires ValidKind(kind) && ValidKind(kind')
    requires Prefix(kind) + x == Prefix(kind') + x'
    ensures kind == kind' && x == x'
  {
    ParsePrefixed(kind, x, []);
    ParsePrefixed(kind', x', []);
  }

  // ------------------------------------------------------------------
  // Stored rows
  // ------------------------------------------------------------------

  /** The key `queue_requests` builds; the count is only used for an EDU. */
  function RowKey(kind: OutgoingKind, event: Event, count: nat): (key: Bytes)
    requires count < U64
  {
    match event
    case Pdu(id) => Prefix(kind) + id
    case Edu(_) => Prefix(kind) + Be64(count)
  }

  function RowValue(event: Event): (value: Bytes) {
    match event
    case Pdu(_) => []
    case Edu(json) => json
  }

  /** Serialized EDUs are JSON and never empty. */
  predicate ValidEvent(event: Event) {
    event.Edu? ==> event.json != []
  }

  /** Storing and parsing a row gives back destination and event. */
  lemma RowRoundTrip(kind: OutgoingKind, event: Event, count: nat)
    requires ValidKind(kind) && count < U64
    ensures Parse(RowKey(kind, event, count), RowValue(event)) == Some((kind, event)) <==> ValidEvent(event)
  {
    match event {
      case Pdu(id) => ParsePrefixed(kind, id, []);
      case Edu(json) => ParsePrefixed(kind, Be64(count), json);
    }
  }

  /** Scanning a destination's prefix reads its own rows and no others. */
  lemma ScanIsOwnRows(t: Table, kind: OutgoingKind)
    requires ValidKind(kind)
    ensures forall key :: key in ScanPrefix(t, Prefix(kind)) <==>
              key in t && Parse(key, t[key]).Some? && Parse(key, t[key]).value.0 == kind
    ensures Ascending(ScanPrefix(t, Prefix(kind)))
  {
    ScanPrefixMembers(t, Prefix(kind));
    forall key | key in t
      ensures Prefix(kind) <= key <==> Parse(key, t[key]).Some? && Parse(key, t[key]).value.0 == kind
    {
      PrefixIffParse(kind, key, t[key]);
    }
  }
}
