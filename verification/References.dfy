// Logical resource references: canonical keys and the payload SchemaRef.

module References {
  import opened Basics
  import opened Text
  import opened Canonical

  datatype Profile = Configuration | Artifact

  datatype Identity = Identity(namespace: string, kind: string, name: string, version: string)

  predicate ValidIdentity(i: Identity) {
    LogicalName(i.namespace) && LogicalName(i.kind) && LogicalName(i.name) && BoundedString(i.version, 256)
  }

  // A channel of one logical resource name.
  datatype Channel = Channel(namespace: string, kind: string, name: string, channel: string)

  // ---------------------------------------------------------------- canonical keys

  function ResourceId(i: Identity): string {
    Escaped(i.namespace) + [':'] + (Escaped(i.kind) + ['/'] + (Escaped(i.name) + ['@'] + Escaped(i.version)))
  }

  function ObjectId(resourceId: string): string {
    "artifacts/" + resourceId
  }

  function ChannelVersionId(c: Channel, pointerVersion: nat): string {
    Escaped(c.namespace) + [':'] + (Escaped(c.kind) + ['/'] + (Escaped(c.name) + ['#']
    + (Escaped(c.channel) + ['@'] + Decimal(pointerVersion))))
  }

  function OrphanCandidateId(resourceId: string, objectId: string, digest: string): string {
    Escaped(resourceId) + ['|'] + (Escaped(objectId) + ['|'] + Escaped(digest))
  }

  // ---------------------------------------------------------------- their decoders

  function DecodeIdentity(s: string): Option<Identity> {
    match SplitFirst(s, ':')
    case None => None
    case Some((a, s1)) =>
      match SplitFirst(s1, '/')
      case None => None
      case Some((b, s2)) =>
        match SplitFirst(s2, '@')
        case None => None
        case Some((c, d)) =>
          match (Unescaped(a), Unescaped(b), Unescaped(c), Unescaped(d))
          case (Some(namespace), Some(kind), Some(name), Some(version)) => Some(Identity(namespace, kind, name, version))
          case _ => None
  }

  function DecodeChannelVersion(s: string): Option<(Channel, nat)> {
    match SplitFirst(s, ':')
    case None => None
    case Some((a, s1)) =>
      match SplitFirst(s1, '/')
      case None => None
      case Some((b, s2)) =>
        match SplitFirst(s2, '#')
        case None => None
        case Some((c, s3)) =>
          match SplitFirst(s3, '@')
          case None => None
          case Some((d, e)) =>
            match (Unescaped(a), Unescaped(b), Unescaped(c), Unescaped(d), FromDecimal(e))
            case (Some(namespace), Some(kind), Some(name), Some(channel), Some(n)) =>
              Some((Channel(namespace, kind, name, channel), n))
            case _ => None
  }

  function DecodeOrphan(s: string): Option<(string, string, string)> {
    match SplitFirst(s, '|')
    case None => None
    case Some((a, s1)) =>
      match SplitFirst(s1, '|')
      case None => None
      case Some((b, c)) =>
        match (Unescaped(a), Unescaped(b), Unescaped(c))
        case (Some(resourceId), Some(objectId), Some(digest)) => Some((resourceId, objectId, digest))
        case _ => None
  }

  // Peeling one escaped component off a key.
  lemma PeelComponent(value: string, delimiter: char, rest: string)
    requires delimiter in ":/@#|"
    ensures SplitFirst(Escaped(value) + [delimiter] + rest, delimiter) == Some((Escaped(value), rest))
    ensures Unescaped(Escaped(value)) == Some(value)
  {
    EscapedHasNoDelimiter(value, delimiter);
    SplitFirstAt(Escaped(value), delimiter, rest);
    EscapedRoundTrip(value);
  }

  lemma IdentityRoundTrip(i: Identity)
    ensures DecodeIdentity(ResourceId(i)) == Some(i)
  {
    var s2 := Escaped(i.name) + ['@'] + Escaped(i.version);
    var s1 := Escaped(i.kind) + ['/'] + s2;
    PeelComponent(i.namespace, ':', s1);
    PeelComponent(i.kind, '/', s2);
    PeelComponent(i.name, '@', Escaped(i.version));
    EscapedRoundTrip(i.version);
  }

  lemma ChannelVersionRoundTrip(c: Channel, n: nat)
    ensures DecodeChannelVersion(ChannelVersionId(c, n)) == Some((c, n))
  {
    var s3 := Escaped(c.channel) + ['@'] + Decimal(n);
    var s2 := Escaped(c.name) + ['#'] + s3;
    var s1 := Escaped(c.kind) + ['/'] + s2;
    PeelComponent(c.namespace, ':', s1);
    PeelComponent(c.kind, '/', s2);
    PeelComponent(c.name, '#', s3);
    PeelComponent(c.channel, '@', Decimal(n));
    DecimalRoundTrip(n);
  }

  lemma OrphanRoundTrip(resourceId: string, objectId: string, digest: string)
    ensures DecodeOrphan(OrphanCandidateId(resourceId, objectId, digest)) == Some((resourceId, objectId, digest))
  {
    PeelComponent(resourceId, '|', Escaped(objectId) + ['|'] + Escaped(digest));
    PeelComponent(objectId, '|', Escaped(digest));
    EscapedRoundTrip(digest);
  }

  // Distinct identities, distinct (channel, version) pairs and distinct orphan triples have distinct keys.
  lemma ResourceIdInjective(i: Identity, j: Identity)
    ensures ResourceId(i) == ResourceId(j) <==> i == j
  {
    IdentityRoundTrip(i);
    IdentityRoundTrip(j);
  }

  lemma ChannelVersionIdInjective(c: Channel, m: nat, d: Channel, n: nat)
    ensures ChannelVersionId(c, m) == ChannelVersionId(d, n) <==> c == d && m == n
  {
    ChannelVersionRoundTrip(c, m);
    ChannelVersionRoundTrip(d, n);
  }

  lemma OrphanCandidateIdInjective(r: string, o: string, d: string, r': string, o': string, d': string)
    ensures OrphanCandidateId(r, o, d) == OrphanCandidateId(r', o', d') <==> r == r' && o == o' && d == d'
  {
    OrphanRoundTrip(r, o, d);
    OrphanRoundTrip(r', o', d');
  }

  // ---------------------------------------------------------------- PayloadSchemaRef

  datatype SchemaRef = SchemaRef(namespace: string, name: string, version: string, catalog: string)

  predicate ValidSchemaRef(r: SchemaRef) {
    && r.catalog == "structured"
    && LogicalName(r.namespace)
    && LogicalName(r.name)
    && BoundedString(r.version, 128)
  }

  function MakeSchemaRef(r: SchemaRef): Result<SchemaRef> {
    if ValidSchemaRef(r) then Ok(r) else Err(InvalidInput)
  }

  function PrintSchemaRef(r: SchemaRef): string {
    r.catalog + [':'] + (r.namespace + ['.'] + r.name) + ['@'] + r.version
  }

  function ParseSchemaRef(s: string): Result<SchemaRef> {
    match SplitLast(s, '@')
    case None => Err(InvalidInput)
    case Some((prefix, version)) =>
      var (catalog, address) :=
        match SplitFirst(prefix, ':')
        case Some((c, a)) => (c, a)
        case None => ("structured", prefix);
      match SplitLast(address, '.')
      case None => Err(InvalidInput)
      case Some((namespace, name)) => MakeSchemaRef(SchemaRef(namespace, name, version, catalog))
  }

  // Parsing "structured:" + address + "@" + version, when no '@' follows the last one.
  lemma ParseStructured(address: string, version: string)
    requires '@' !in version
    ensures ParseSchemaRef("structured" + [':'] + address + ['@'] + version) ==
            match SplitLast(address, '.')
            case None => Err(InvalidInput)
            case Some((namespace, name)) => MakeSchemaRef(SchemaRef(namespace, name, version, "structured"))
  {
    SplitLastAt("structured" + [':'] + address, '@', version);
    SplitFirstAt("structured", ':', address);
  }

  // No logical name contains '@'.
  lemma AtIsNoName(a: string, b: string, at: nat)
    requires at < |a + ['.'] + b| && (a + ['.'] + b)[at] == '@'
    ensures !(LogicalName(a) && LogicalName(b))
  {
    if at < |a| {
      assert a[at] == '@' && !NameChar('@');
    } else {
      assert b[at - |a| - 1] == '@' && !NameChar('@');
    }
  }

  lemma AddressWithAtFails(address: string, at: nat, version: string)
    requires at < |address| && address[at] == '@' && '@' !in version
    ensures ParseSchemaRef("structured" + [':'] + address + ['@'] + version) == Err(InvalidInput)
  {
    ParseStructured(address, version);
    if SplitLast(address, '.').Some? {
      SplitLastFound(address, '.');
      var (a, b) := SplitLast(address, '.').value;
      AtIsNoName(a, b, at);
    }
  }

  lemma SplitVersion(prefix: string, names: string, version: string, p: string, q: string)
    requires version == p + ['@'] + q
    ensures prefix + names + ['@'] + version == prefix + (names + ['@'] + p) + ['@'] + q
  {
  }

  // A version that contains '@' leaves an '@' in the address, which no logical name allows.
  lemma VersionWithAtFails(r: SchemaRef)
    requires r.catalog == "structured" && '@' in r.version
    ensures ParseSchemaRef(PrintSchemaRef(r)) == Err(InvalidInput)
  {
    SplitLastParts(r.version, '@');
    var (p, q) := SplitLast(r.version, '@').value;
    var names := r.namespace + ['.'] + r.name;
    SplitVersion(r.catalog + [':'], names, r.version, p, q);
    AddressWithAtFails(names + ['@'] + p, |names|, q);
  }

  lemma SplitLastFound(s: string, sep: char)
    requires SplitLast(s, sep).Some?
    ensures var (a, b) := SplitLast(s, sep).value; s == a + [sep] + b && sep !in b
  {
    SplitLastSome(s, sep);
    SplitLastParts(s, sep);
  }

  lemma {:induction false} SplitLastSome(s: string, sep: char)
    requires SplitLast(s, sep).Some?
    ensures sep in s
  {
    if s[|s| - 1] != sep {
      SplitLastSome(s[..|s| - 1], sep);
    }
  }

  lemma UndottedNameParses(r: SchemaRef)
    requires r.catalog == "structured" && '.' !in r.name && '@' !in r.version
    ensures ParseSchemaRef(PrintSchemaRef(r)) == MakeSchemaRef(r)
  {
    ParseStructured(r.namespace + ['.'] + r.name, r.version);
    SplitLastAt(r.namespace, '.', r.name);
  }

  // A dotted name is cut at its last '.', and everything before it goes to the namespace.
  lemma DottedNameShifts(r: SchemaRef, a: string, b: string)
    requires r.catalog == "structured" && '@' !in r.version
    requires r.name == a + ['.'] + b && '.' !in b
    ensures ParseSchemaRef(PrintSchemaRef(r)) == MakeSchemaRef(SchemaRef(r.namespace + ['.'] + a, b, r.version, r.catalog))
  {
    var address := r.namespace + ['.'] + r.name;
    ParseStructured(address, r.version);
    assert address == (r.namespace + ['.'] + a) + ['.'] + b;
    SplitLastAt(r.namespace + ['.'] + a, '.', b);
  }

  // Printing and parsing agree exactly when the name has no '.' and the version no '@'.
  lemma SchemaRefRoundTrip(r: SchemaRef)
    requires ValidSchemaRef(r)
    ensures ParseSchemaRef(PrintSchemaRef(r)) == Ok(r) <==> '.' !in r.name && '@' !in r.version
  {
    if '@' in r.version {
      VersionWithAtFails(r);
    } else if '.' in r.name {
      SplitLastParts(r.name, '.');
      var (a, b) := SplitLast(r.name, '.').value;
      DottedNameShifts(r, a, b);
      assert |b| < |r.name|;
    } else {
      UndottedNameParses(r);
    }
  }

  // An input on which they do not: the name "b.c" in the namespace "a" comes back as "c" in "a.b".
  lemma DottedReference()
    ensures ValidSchemaRef(SchemaRef("a", "b.c", "1", "structured"))
    ensures ParseSchemaRef(PrintSchemaRef(SchemaRef("a", "b.c", "1", "structured"))) == Ok(SchemaRef("a.b", "c", "1", "structured"))
  {
    hide PrintSchemaRef, ParseSchemaRef, LogicalName, BoundedString, Utf8;
    ShortNameIsLogical("a");
    ShortNameIsLogical("b.c");
    ShortNameIsLogical("a.b");
    ShortNameIsLogical("c");
    PlainIsBounded("1", 128);
    assert "b.c" == "b" + ['.'] + "c" && "a" + ['.'] + "b" == "a.b";
    DottedNameShifts(SchemaRef("a", "b.c", "1", "structured"), "b", "c");
  }

  lemma {:induction false} SplitFirstFound(s: string, sep: char)
    requires SplitFirst(s, sep).Some?
    ensures var (a, b) := SplitFirst(s, sep).value; s == a + [sep] + b && sep !in a
  {
    if s[0] != sep {
      SplitFirstFound(s[1..], sep);
      var (a, b) := SplitFirst(s[1..], sep).value;
      assert s == [s[0]] + s[1..];
      assert s == ([s[0]] + a) + [sep] + b;
    } else {
      assert s == [] + [sep] + s[1..];
    }
  }

  // Whatever parses prints back as itself, with the default catalog spelled out.
  lemma PrintParsed(s: string)
    requires ParseSchemaRef(s).Ok?
    ensures ValidSchemaRef(ParseSchemaRef(s).value)
    ensures PrintSchemaRef(ParseSchemaRef(s).value) in {s, "structured:" + s}
  {
    hide SplitLast, SplitFirst, LogicalName, BoundedString;
    SplitLastFound(s, '@');
    var (prefix, version) := SplitLast(s, '@').value;
    var r := ParseSchemaRef(s).value;
    if SplitFirst(prefix, ':').Some? {
      SplitFirstFound(prefix, ':');
      var (_, address) := SplitFirst(prefix, ':').value;
      SplitLastFound(address, '.');
      assert PrintSchemaRef(r) == s;
    } else {
      SplitLastFound(prefix, '.');
      assert PrintSchemaRef(r) == "structured" + [':'] + (prefix + ['@'] + version);
      assert "structured:" == "structured" + [':'];
    }
  }
}
