/** The canonical form of a connection's identity: 21 normalised values, each behind a tag and a
    length. Equal bytes mean equal values, and the other way round. */
module ConnectionIdentity {
  import opened Options
  import WireLayout
  import opened Concatenation
  import PathSpec
  import PathNormalizer
  import opened IdentityText

  const HEADER: string := ['V', 'P', 'S', 'I', '\U{1}']
  const CANONICAL_LIMIT := 65536
  const FIELD_COUNT := 21

  // ----- tagged fields

  function Chars(b: seq<WireLayout.Byte>): (s: string)
    ensures |s| == |b| && forall i :: 0 <= i < |b| ==> s[i] == b[i] as char
  {
    seq(|b|, i requires 0 <= i < |b| => b[i] as char)
  }

  function Record(tag: nat, value: string): (r: string)
    requires tag < 256
    ensures |r| == 5 + |value|
  {
    [tag as char] + Chars(WireLayout.Put(4, |value|)) + value
  }

  lemma RecordParts(tag: nat, value: string)
    requires tag < 256
    ensures Record(tag, value)[1..5] == Chars(WireLayout.Put(4, |value|)) && Record(tag, value)[5..] == value
  {
  }

  function Records(tag: nat, values: seq<string>): string
    requires tag + |values| <= 256
    decreases |values|
  {
    if values == [] then "" else Record(tag, values[0]) + Records(tag + 1, values[1..])
  }

  function Canonical(values: seq<string>): string
    requires |values| == FIELD_COUNT
  {
    HEADER + Records(1, values)
  }

  ghost predicate Short(values: seq<string>) {
    forall i :: 0 <= i < |values| ==> |values[i]| <= UINT32_MAX
  }

  lemma LengthsAgree(a: nat, b: nat)
    requires a <= UINT32_MAX && b <= UINT32_MAX && Chars(WireLayout.Put(4, a)) == Chars(WireLayout.Put(4, b))
    ensures a == b
  {
    var x, y := WireLayout.Put(4, a), WireLayout.Put(4, b);
    forall i | 0 <= i < |x| ensures x[i] == y[i] {
      assert Chars(x)[i] == Chars(y)[i];
    }
    assert x == y;
    assert WireLayout.Pow256(4) == 0x1_0000_0000;
    WireLayout.GetPut(4, a);
    WireLayout.GetPut(4, b);
  }

  lemma RecordAgrees(tag: nat, a: string, restA: string, b: string, restB: string)
    requires tag < 256 && |a| <= UINT32_MAX && |b| <= UINT32_MAX
    requires Record(tag, a) + restA == Record(tag, b) + restB
    ensures a == b && restA == restB
  {
    var x, y := Record(tag, a) + restA, Record(tag, b) + restB;
    RecordParts(tag, a);
    RecordParts(tag, b);
    assert x[1..5] == Record(tag, a)[1..5] && y[1..5] == Record(tag, b)[1..5];
    LengthsAgree(|a|, |b|);
    assert x[5..5 + |a|] == a && y[5..5 + |b|] == b;
    assert x[5 + |a|..] == restA && y[5 + |b|..] == restB;
  }

  lemma {:induction false} RecordsInjective(tag: nat, a: seq<string>, b: seq<string>)
    requires tag + |a| <= 256 && |a| == |b| && Short(a) && Short(b)
    requires Records(tag, a) == Records(tag, b)
    ensures a == b
    decreases |a|
  {
    if a != [] {
      RecordAgrees(tag, a[0], Records(tag + 1, a[1..]), b[0], Records(tag + 1, b[1..]));
      RecordsInjective(tag + 1, a[1..], b[1..]);
      assert a == [a[0]] + a[1..] && b == [b[0]] + b[1..];
    }
  }

  /** Equal canonical bytes exactly when all 21 values are equal. */
  lemma CanonicalInjective(a: seq<string>, b: seq<string>)
    requires |a| == |b| == FIELD_COUNT && Short(a) && Short(b)
    ensures Canonical(a) == Canonical(b) <==> a == b
  {
    if Canonical(a) == Canonical(b) {
      assert Canonical(a)[|HEADER|..] == Records(1, a) && Canonical(b)[|HEADER|..] == Records(1, b);
      RecordsInjective(1, a, b);
    }
  }

  // ----- where the values come from

  datatype Isolation = ReadCommitted | RepeatableRead | Serializable

  datatype Config = Config(
    backend: Option<string>, hosts: Option<string>, ports: Option<string>, dbname: Option<string>,
    user: Option<string>, service: Option<string>, serviceFile: Option<string>, sslmode: Option<string>,
    sslrootcert: Option<string>, sslcert: Option<string>, sslkey: Option<string>, sslcrl: Option<string>,
    channelBinding: Option<string>, targetSessionAttrs: Option<string>, searchPath: Option<string>,
    readWrite: bool, connectTimeout: Timeout, statementTimeout: Timeout, lockTimeout: Timeout,
    isolation: Isolation, transactionReadOnly: bool)

  /** A timeout given as an argument wins over the configured text. */
  datatype Timeout = Timeout(argument: Option<Uint32>, text: Option<string>)

  datatype Source =
    | Backend(name: Option<string>)
    | Text(value: string, lower: bool)
    | List(kind: Kind, value: string)
    | Path(path: Option<string>)
    | Duration(timeout: Timeout)
    | Fixed(value: string)

  function Or(value: Option<string>, default: string): string {
    if value.Some? then value.value else default
  }

  function Sources(c: Config): (r: seq<Source>)
    ensures |r| == FIELD_COUNT
  {
    [Backend(c.backend),
     List(TextItems(true), Or(c.hosts, "")),
     List(PortItems, Or(c.ports, if c.hosts.None? then "" else "5432")),
     Text(Or(c.dbname, ""), false),
     Text(Or(c.user, ""), false),
     Text(Or(c.service, ""), false),
     Path(c.serviceFile),
     Text(Or(c.sslmode, "verify-full"), true),
     Path(c.sslrootcert),
     Path(c.sslcert),
     Path(c.sslkey),
     Path(c.sslcrl),
     Text(Or(c.channelBinding, "prefer"), true),
     Text(Or(c.targetSessionAttrs, "any"), true),
     List(TextItems(false), Or(c.searchPath, "")),
     Fixed(if c.readWrite then "rw" else "ro"),
     Duration(c.connectTimeout),
     Duration(c.statementTimeout),
     Duration(c.lockTimeout),
     Fixed(if c.isolation.RepeatableRead? then "repeatable_read"
           else if c.isolation.Serializable? then "serializable" else "read_committed"),
     Fixed(if c.transactionReadOnly then "true" else "false")]
  }

  predicate Bounded(s: string) { |s| <= LIMIT && Printable(s) }

  function DurationText(t: Timeout): Option<string> {
    if t.argument.Some? then Some(Decimal(t.argument.value))
    else if t.text.None? then Some("0")
    else if !Bounded(t.text.value) then None
    else
      var s := Trim(t.text.value);
      if s != "" && Digits(s) && Value(s) <= UINT32_MAX then Some(Decimal(Value(s))) else None
  }

  function BackendText(name: Option<string>): Option<string> {
    var s := Or(name, "postgresql");
    if s == "" || |s| > 64 || '\0' in s then None else NormalizedText(s, true)
  }

  /** The normal form of one value, if it has one. */
  function Normal(source: Source): Option<string> {
    match source
    case Backend(name) => BackendText(name)
    case Text(value, lower) => if Bounded(value) then NormalizedText(value, lower) else None
    case List(kind, value) => if Bounded(value) then NormalizedList(kind, value) else None
    case Path(path) =>
      if path.None? then Some("")
      else if Bounded(path.value) && |PathSpec.Normalized(path.value)| <= LIMIT then Some(PathSpec.Normalized(path.value))
      else None
    case Duration(t) => DurationText(t)
    case Fixed(value) => Some(value)
  }

  function Normals(sources: seq<Source>): (r: Option<seq<string>>)
    ensures r.Some? ==> |r.value| == |sources| && forall i :: 0 <= i < |sources| ==> Normal(sources[i]) == Some(r.value[i])
    ensures r.None? ==> exists i :: 0 <= i < |sources| && Normal(sources[i]).None?
  {
    if sources == [] then Some([])
    else
      var head, tail := Normal(sources[0]), Normals(sources[1..]);
      if head.Some? && tail.Some? then Some([head.value] + tail.value) else None
  }

  /** What two configurations share when they denote the same connection. */
  function Values(c: Config): Option<seq<string>> { Normals(Sources(c)) }

  lemma ValuesShort(c: Config)
    ensures Values(c).Some? ==> |Values(c).value| == FIELD_COUNT && Short(Values(c).value)
  {
    if Values(c).Some? {
      forall i | 0 <= i < FIELD_COUNT ensures |Values(c).value[i]| <= UINT32_MAX {
        NormalWithin(Sources(c)[i]);
        CapsWithin(c, i);
      }
    }
  }

  /** Two configurations get the same canonical bytes exactly when all their values agree. */
  lemma SameBytesIffSameValues(a: Config, b: Config)
    requires Values(a).Some? && Values(b).Some?
    ensures |Values(a).value| == |Values(b).value| == FIELD_COUNT
    ensures Canonical(Values(a).value) == Canonical(Values(b).value) <==> Values(a) == Values(b)
  {
    ValuesShort(a);
    ValuesShort(b);
    CanonicalInjective(Values(a).value, Values(b).value);
  }

  // ----- the canonical bytes always fit

  function Cap(source: Source): nat {
    match source
    case Backend(_) => 64
    case Duration(_) => 10
    case Fixed(value) => |value|
    case _ => LIMIT
  }

  function CapAt(i: nat): nat {
    if i == 0 then 64 else if i <= 14 then LIMIT else 15
  }

  function Room(i: nat): nat {
    if i == 0 then 5 else Room(i - 1) + 5 + CapAt(i - 1)
  }

  lemma RoomEnough(i: nat)
    requires i <= FIELD_COUNT
    ensures Room(i) <= CANONICAL_LIMIT
  {
    if i < FIELD_COUNT { RoomGrows(i, FIELD_COUNT); }
    assert Room(1) == 74;
    assert Room(8) == 74 + 7 * 4101;
    assert Room(15) == 74 + 14 * 4101;
    assert Room(21) == 74 + 14 * 4101 + 6 * 20;
  }

  lemma {:induction false} RoomGrows(i: nat, j: nat)
    requires i <= j
    ensures Room(i) <= Room(j)
  {
    if i < j { RoomGrows(i, j - 1); }
  }

  lemma CapsWithin(c: Config, i: nat)
    requires i < FIELD_COUNT
    ensures Cap(Sources(c)[i]) <= CapAt(i)
  {
    if i < 7 { assert Cap(Sources(c)[i]) <= CapAt(i); }
    else if i < 15 { assert Cap(Sources(c)[i]) <= CapAt(i); }
  }

  lemma NormalWithin(source: Source)
    ensures Normal(source).Some? ==> |Normal(source).value| <= Cap(source)
  {
    if source.Duration? && Normal(source).Some? {
      var t := source.timeout;
      if t.argument.Some? { TenDigits(t.argument.value); }
      else if t.text.Some? { TenDigits(Value(Trim(t.text.value))); }
    }
  }

  lemma RecordsCons(tag: nat, first: string, rest: seq<string>)
    requires tag + |rest| + 1 <= 256
    ensures Records(tag, [first] + rest) == Record(tag, first) + Records(tag + 1, rest)
  {
    assert ([first] + rest)[1..] == rest;
  }

  lemma {:induction false} RecordsNext(tag: nat, values: seq<string>, value: string)
    requires tag + |values| + 1 <= 256
    ensures Records(tag, values + [value]) == Records(tag, values) + Record(tag + |values|, value)
    decreases |values|
  {
    if values == [] {
      assert values + [value] == [value];
      assert Records(tag + 1, [value][1..]) == "";
      assert Records(tag, [value]) == Record(tag, value) + "";
    } else {
      RecordsNext(tag + 1, values[1..], value);
      RecordsCons(tag, values[0], values[1..] + [value]);
      assert values + [value] == [values[0]] + (values[1..] + [value]);
      Assoc(Record(tag, values[0]), Records(tag + 1, values[1..]), Record(tag + |values|, value));
    }
  }

  // ----- building

  method NormalizeDuration(t: Timeout) returns (r: Option<string>)
    ensures r == DurationText(t)
  {
    var text;
    if t.argument.Some? {
      text := WriteDecimal(t.argument.value);
      return Some(text);
    }
    if t.text.None? { return Some("0"); }
    var s := t.text.value;
    if !Bounded(s) { return None; }
    var begin, end := TrimRange(s, 0, |s|);
    assert s[0..|s|] == s;
    if begin == end { return None; }
    var digits := s[begin..end];
    var parsed := 0;
    for i := 0 to |digits|
      invariant Digits(digits[..i]) && parsed == Value(digits[..i]) <= UINT32_MAX
    {
      if !IsDigit(digits[i]) { return None; }
      assert digits[..i + 1] == digits[..i] + [digits[i]] && digits[..i + 1][..i] == digits[..i];
      var digit := DigitValue(digits[i]);
      if parsed > (UINT32_MAX - digit) / 10 {
        if Digits(digits) { ValueGrows(digits, i + 1); }
        return None;
      }
      parsed := parsed * 10 + digit;
    }
    assert digits[..|digits|] == digits;
    text := WriteDecimal(parsed);
    r := Some(text);
  }

  method NormalizeSource(source: Source) returns (r: Option<string>)
    ensures r == Normal(source)
  {
    var buffer := new char[LIMIT + 1];
    match source
    case Backend(name) =>
      var s := Or(name, "postgresql");
      if |s| == 0 || |s| > 64 || '\0' in s { return None; }
      r := CopyNormalized(s, 0, |s|, true);
      assert s[0..|s|] == s;
    case Text(value, lower) =>
      if !Bounded(value) { return None; }
      r := CopyNormalized(value, 0, |value|, lower);
      assert value[0..|value|] == value;
    case List(kind, value) =>
      if !Bounded(value) { return None; }
      var ok, length := NormalizeList(kind, value, buffer);
      r := if ok then Some(buffer[..length]) else None;
    case Path(path) =>
      if !path.Some? { return Some(""); }
      if !Bounded(path.value) { return None; }
      var ok, length := PathNormalizer.Normalize(path.value, buffer);
      r := if ok then Some(buffer[..length]) else None;
    case Duration(t) => r := NormalizeDuration(t);
    case Fixed(value) => r := Some(value);
  }

  datatype Status = Ok | InvalidValue | LimitExceeded | OutOfMemory
  datatype Comparison = Different | Same | GenerationChanged

  class Identity {
    var canonical: string
    var credentialGeneration: nat
    var configurationGeneration: nat
    var built: bool

    constructor ()
      ensures canonical == "" && !built
    {
      canonical, credentialGeneration, configurationGeneration, built := "", 0, 0, false;
    }

    /** Builds into a replacement and takes it over only when all 21 fields are in place. */
    method Build(c: Config, credentialGeneration: nat, connectionGeneration: nat, configurationGeneration: nat)
      returns (status: Status)
      modifies this
      ensures !status.LimitExceeded?
      ensures status.Ok? ==> Values(c).Some? && |Values(c).value| == FIELD_COUNT
      ensures status.Ok? ==> built && canonical == Canonical(Values(c).value)
      ensures status.Ok? ==> this.credentialGeneration == (if credentialGeneration != 0 then credentialGeneration else connectionGeneration)
                             && this.configurationGeneration == configurationGeneration
      ensures status.InvalidValue? ==> Values(c).None?
      ensures Values(c).None? ==> status.InvalidValue? || status.OutOfMemory?
      ensures !status.Ok? ==> unchanged(this)
    {
      forall i | 0 <= i < FIELD_COUNT ensures Cap(Sources(c)[i]) <= CapAt(i) { CapsWithin(c, i); }
      var replacement;
      status, replacement := Assemble(Sources(c));
      if status.Ok? {
        canonical, built := replacement, true;
        this.credentialGeneration := if credentialGeneration != 0 then credentialGeneration else connectionGeneration;
        this.configurationGeneration := configurationGeneration;
      }
    }
  }

  /** Normalises and appends the fields one after another. */
  method Assemble(sources: seq<Source>) returns (status: Status, buffer: string)
    requires |sources| == FIELD_COUNT && forall i :: 0 <= i < FIELD_COUNT ==> Cap(sources[i]) <= CapAt(i)
    ensures !status.LimitExceeded?
    ensures status.Ok? ==> Normals(sources).Some? && buffer == Canonical(Normals(sources).value)
    ensures status.InvalidValue? ==> Normals(sources).None?
    ensures Normals(sources).None? ==> status.InvalidValue? || status.OutOfMemory?
  {
    buffer := HEADER;
    ghost var values: seq<string> := [];
    for i := 0 to FIELD_COUNT
      invariant |values| == i && NormalUpTo(sources, values)
      invariant buffer == HEADER + Records(1, values) && |buffer| <= Room(i)
    {
      RoomEnough(i + 1);
      ghost var value;
      status, buffer, value := AddField(buffer, i + 1, sources[i]);
      if !status.Ok? { return status, ""; }
      NormalNext(sources, values, value);
      WrittenNext(HEADER, values, value);
      values := values + [value];
    }
    AllNormal(sources, values);
    status := Ok;
  }

  ghost predicate NormalUpTo(sources: seq<Source>, values: seq<string>) {
    |values| <= |sources| && forall k :: 0 <= k < |values| ==> Normal(sources[k]) == Some(values[k])
  }

  lemma NormalNext(sources: seq<Source>, values: seq<string>, value: string)
    requires NormalUpTo(sources, values) && |values| < |sources| && Normal(sources[|values|]) == Some(value)
    ensures NormalUpTo(sources, values + [value])
  {
    var longer := values + [value];
    forall k | 0 <= k < |longer| ensures Normal(sources[k]) == Some(longer[k]) {
      if k < |values| { assert longer[k] == values[k]; }
    }
  }

  lemma WrittenNext(header: string, values: seq<string>, value: string)
    requires |values| < FIELD_COUNT
    ensures header + Records(1, values + [value]) == header + Records(1, values) + Record(1 + |values|, value)
  {
    RecordsNext(1, values, value);
  }

  lemma AllNormal(sources: seq<Source>, values: seq<string>)
    requires NormalUpTo(sources, values) && |values| == |sources|
    ensures Normals(sources) == Some(values)
  {
    if Normals(sources).Some? { assert Normals(sources).value == values; }
  }

  method AddField(buffer: string, tag: nat, source: Source) returns (status: Status, r: string, ghost value: string)
    requires tag < 256
    ensures status.LimitExceeded? ==> |buffer| + 5 + Cap(source) > CANONICAL_LIMIT
    ensures status.InvalidValue? <==> Normal(source).None?
    ensures status.Ok? ==> Normal(source) == Some(value) && |value| <= Cap(source) && r == buffer + Record(tag, value)
  {
    var text := NormalizeSource(source);
    NormalWithin(source);
    if !text.Some? { return InvalidValue, "", ""; }
    value := text.value;
    status, r := Append(buffer, tag, text.value);
  }

  method Append(buffer: string, tag: nat, value: string) returns (status: Status, r: string)
    requires tag < 256
    ensures |buffer| + 5 + |value| > CANONICAL_LIMIT <==> status.LimitExceeded?
    ensures status.Ok? ==> r == buffer + Record(tag, value)
    ensures !status.InvalidValue?
  {
    if |buffer| + 5 + |value| > CANONICAL_LIMIT { return LimitExceeded, buffer; }
    var enough: bool := *;
    if !enough { return OutOfMemory, buffer; }
    return Ok, buffer + Record(tag, value);
  }

  // ----- comparing

  datatype Snapshot = Snapshot(canonical: string, credentialGeneration: nat, configurationGeneration: nat, built: bool)

  function Compare(a: Snapshot, b: Snapshot): Comparison {
    if !a.built || !b.built || a.canonical != b.canonical then Different
    else if a.credentialGeneration == b.credentialGeneration && a.configurationGeneration == b.configurationGeneration then Same
    else GenerationChanged
  }

  /** On built identities, being the same is an equivalence; an unbuilt one is the same as nothing. */
  lemma CompareIsEquivalence(a: Snapshot, b: Snapshot, c: Snapshot)
    ensures Compare(a, a).Same? <==> a.built
    ensures Compare(a, b) == Compare(b, a)
    ensures Compare(a, b).Same? && Compare(b, c).Same? ==> Compare(a, c).Same?
    ensures Compare(a, b).Same? ==> Compare(a, c) == Compare(b, c)
  {
  }

  /** Identities built from configurations with the same generations are the same exactly when
      the configurations have the same 21 values. */
  lemma SameIffSameValues(a: Config, b: Config, credential: nat, configuration: nat)
    requires Values(a).Some? && Values(b).Some?
    ensures |Values(a).value| == |Values(b).value| == FIELD_COUNT
    ensures Compare(Snapshot(Canonical(Values(a).value), credential, configuration, true),
                    Snapshot(Canonical(Values(b).value), credential, configuration, true)).Same?
            <==> Values(a) == Values(b)
  {
    SameBytesIffSameValues(a, b);
  }
}
