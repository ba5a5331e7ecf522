/**
 The walk over a DER certificate that reads a serving certificate's facts: when it expires,
 which DNS names it serves and who issued it. One element is taken at a time, and what is
 left is always strictly shorter, so every loop ends on every input.
 */
module Der {
  import opened Wrappers
  import opened Text
  import opened Wire
  import opened ServingCert

  datatype Tlv = Tlv(tag: byte, value: bytes)

  // ---- One element -----------------------------------------------------------------

  /** `bytes.iter().fold(0, |acc, b| (acc << 8) | b)`. */
  function BigEndian(b: bytes): nat {
    if b == [] then 0 else BigEndian(b[..|b| - 1]) * 256 + b[|b| - 1]
  }

  /** The length field: its value and where the element's value starts. */
  function LengthOf(b: bytes): Option<(nat, nat)>
    requires |b| >= 2
  {
    if b[1] < 0x80 then Some((b[1], 2))
    else
      var count := b[1] as int - 0x80;
      if count == 0 || count > 4 || |b| < 2 + count then None
      else Some((BigEndian(b[2..2 + count]), 2 + count))
  }

  /** `take`: one definite-length element, and whatever follows it. */
  function TakeTlv(b: bytes): (r: Read<Tlv>)
    ensures r.Got? ==> |r.rest| < |b|
  {
    if |b| < 2 || b[0] % 32 == 31 then Short
    else
      match LengthOf(b)
      case None => Short
      case Some((len, header)) =>
        if header + len > |b| then Short else Got(Tlv(b[0], b[header..header + len]), b[header + len..])
  }

  /** Accepted or not, nothing is invented: the input is a header of two to six bytes, the
      value, and a strictly shorter rest. */
  lemma TakeSplits(b: bytes) returns (header: bytes)
    requires TakeTlv(b).Got?
    ensures 2 <= |header| <= 6 && header[0] == TakeTlv(b).value.tag
    ensures b == header + TakeTlv(b).value.value + TakeTlv(b).rest
    ensures |TakeTlv(b).rest| < |b|
  {
    var h := LengthOf(b).value.1;
    header := b[..h];
  }

  // ---- Writing one -----------------------------------------------------------------

  function Big2(n: nat): bytes
    requires n < 0x1_0000
  {
    [n / 256, n % 256]
  }

  /** The length as DER writes it, in as few bytes as it takes. */
  function PutLength(n: nat): (l: bytes)
    ensures |l| > 0
  {
    if n < 0x80 then [n]
    else if n < 0x100 then [0x81, n]
    else if n < 0x1_0000 then [0x82] + Big2(n)
    else if n < 0x100_0000 then [0x83, n / 0x1_0000] + Big2(n % 0x1_0000)
    else if n <= U32_MAX then [0x84] + Big2(n / 0x1_0000) + Big2(n % 0x1_0000)
    else [0x80]
  }

  function PutTlv(t: Tlv): (b: bytes)
    ensures b != []
  {
    [t.tag] + PutLength(|t.value|) + t.value
  }

  predicate TlvOk(t: Tlv) {
    t.tag % 32 != 31 && |t.value| <= U32_MAX
  }

  lemma BigOne(x: byte)
    ensures BigEndian([x]) == x
  {
    assert [x][..0] == [];
    assert BigEndian([x]) == BigEndian([x][..0]) * 256 + x;
  }

  lemma BigTwo(x: byte, y: byte)
    ensures BigEndian([x, y]) == x as int * 256 + y as int
  {
    assert [x, y][..1] == [x];
    BigOne(x);
  }

  lemma BigThree(x: byte, y: byte, z: byte)
    ensures BigEndian([x, y, z]) == (x as int * 256 + y as int) * 256 + z as int
  {
    assert [x, y, z][..2] == [x, y];
    BigTwo(x, y);
  }

  lemma BigFour(x: byte, y: byte, z: byte, w: byte)
    ensures BigEndian([x, y, z, w]) == ((x as int * 256 + y as int) * 256 + z as int) * 256 + w as int
  {
    assert [x, y, z, w][..3] == [x, y, z];
    BigThree(x, y, z);
  }

  lemma LengthReadsBack(tag: byte, n: nat, rest: bytes)
    requires n <= U32_MAX
    ensures LengthOf([tag] + PutLength(n) + rest) == Some((n, 1 + |PutLength(n)|))
  {
    var l := PutLength(n);
    var b := [tag] + l + rest;
    assert b[1..1 + |l|] == l && b[1] == l[0];
    if n < 0x80 {
    } else if n < 0x100 {
      assert b[2..3] == [n];
      BigOne(n);
    } else if n < 0x1_0000 {
      assert b[2..4] == Big2(n);
      BigTwo(n / 256, n % 256);
    } else if n < 0x100_0000 {
      var m := n % 0x1_0000;
      assert b[2..5] == [n / 0x1_0000, m / 256, m % 256];
      BigThree(n / 0x1_0000, m / 256, m % 256);
    } else {
      var h, m := n / 0x1_0000, n % 0x1_0000;
      assert b[2..6] == [h / 256, h % 256, m / 256, m % 256];
      BigFour(h / 256, h % 256, m / 256, m % 256);
    }
  }

  /** What was written, in front of anything, is taken back. */
  lemma TlvFraming(t: Tlv, rest: bytes)
    requires TlvOk(t)
    ensures TakeTlv(PutTlv(t) + rest) == Got(t, rest)
  {
    var l := PutLength(|t.value|);
    var b := PutTlv(t) + rest;
    assert b == [t.tag] + l + (t.value + rest);
    LengthReadsBack(t.tag, |t.value|, t.value + rest);
    var h := 1 + |l|;
    assert b[h..h + |t.value|] == t.value && b[h + |t.value|..] == rest;
  }

  // ---- The walk --------------------------------------------------------------------

  const SAN_OID: bytes := [0x55, 0x1d, 0x11]
  const AKI_OID: bytes := [0x55, 0x1d, 0x23]

  /** `take` and `expect`: the value of an element that has to have this tag. */
  function Inside(b: bytes, tag: byte): Option<bytes> {
    match TakeTlv(b)
    case Short => None
    case Got(t, _) => if t.tag == tag then Some(t.value) else None
  }

  function SanWalk(b: bytes, out: seq<string>): Option<seq<string>>
    decreases |b|
  {
    if b == [] then Some(out)
    else
      match TakeTlv(b)
      case Short => None
      case Got(name, rest) =>
        if name.tag != 0x82 then SanWalk(rest, out)
        else match Decode(name.value) case None => None case Some(s) => SanWalk(rest, out + [s])
  }

  function KeyWalk(b: bytes): Option<Option<bytes>>
    decreases |b|
  {
    if b == [] then Some(None)
    else
      match TakeTlv(b)
      case Short => None
      case Got(field, rest) => if field.tag == 0x80 then Some(Some(field.value)) else KeyWalk(rest)
  }

  function SanNames(b: bytes): Option<seq<string>> {
    match Inside(b, 0x30) case None => None case Some(v) => SanWalk(v, [])
  }

  function AuthorityKey(b: bytes): Option<Option<bytes>> {
    match Inside(b, 0x30) case None => None case Some(v) => KeyWalk(v)
  }

  /** What the extensions have said so far. */
  datatype Known = Known(names: seq<string>, keyId: Option<bytes>)

  const NOTHING_KNOWN := Known([], None)

  function Learn(oid: bytes, payload: Tlv, k: Known): Option<Known> {
    if payload.tag != 0x04 then None
    else if oid == SAN_OID then
      match SanNames(payload.value) case None => None case Some(names) => Some(k.(names := names))
    else
      match AuthorityKey(payload.value) case None => None case Some(id) => Some(k.(keyId := id))
  }

  /** One extension's content: the identifier, perhaps a critical flag, the value. */
  function ReadExtension(value: bytes, k: Known): Option<Known> {
    match TakeTlv(value)
    case Short => None
    case Got(oid, after) =>
      if oid.tag != 0x06 then None
      else if oid.value != SAN_OID && oid.value != AKI_OID then Some(k)
      else
        match TakeTlv(after)
        case Short => None
        case Got(first, after) =>
          if first.tag != 0x01 then Learn(oid.value, first, k)
          else match TakeTlv(after) case Short => None case Got(payload, _) => Learn(oid.value, payload, k)
  }

  function ExtensionWalk(b: bytes, k: Known): Option<Known>
    decreases |b|
  {
    if b == [] then Some(k)
    else
      match TakeTlv(b)
      case Short => None
      case Got(ext, rest) =>
        if ext.tag != 0x30 then None
        else match ReadExtension(ext.value, k) case None => None case Some(k) => ExtensionWalk(rest, k)
  }

  function Extensions(b: bytes): Option<Known> {
    match Inside(b, 0x30) case None => None case Some(v) => ExtensionWalk(v, NOTHING_KNOWN)
  }

  /** The optional elements after the public key: the first tagged [3] holds the extensions. */
  function FindExtensions(b: bytes): Option<Known>
    decreases |b|
  {
    if b == [] then Some(NOTHING_KNOWN)
    else
      match TakeTlv(b)
      case Short => None
      case Got(t, rest) => if t.tag == 0xa3 then Extensions(t.value) else FindExtensions(rest)
  }

  function Skip(n: nat, b: bytes): Option<bytes> {
    if n == 0 then Some(b)
    else match TakeTlv(b) case Short => None case Got(_, rest) => Skip(n - 1, rest)
  }

  /** Past the optional [0] version. */
  function AfterVersion(b: bytes): Option<bytes> {
    match TakeTlv(b) case Short => None case Got(first, after) => Some(if first.tag == 0xa0 then after else b)
  }

  /** The time an element stands for, or nothing: `parse_time`. */
  type TimeOf = Tlv -> Option<int>

  function ReadValidity(time: TimeOf, v: bytes): Option<int> {
    match TakeTlv(v)
    case Short => None
    case Got(_, after) => match TakeTlv(after) case Short => None case Got(notAfter, _) => time(notAfter)
  }

  /** From the validity on. */
  function ReadFromValidity(time: TimeOf, nameDer: bytes, b: bytes): Option<CertFacts> {
    match TakeTlv(b)
    case Short => None
    case Got(validity, after) =>
      if validity.tag != 0x30 then None
      else
        match ReadValidity(time, validity.value)
        case None => None
        case Some(notAfter) =>
          match Skip(2, after)
          case None => None
          case Some(rest) =>
            match FindExtensions(rest)
            case None => None
            case Some(k) => Some(CertFacts(notAfter, k.names, Issuer(nameDer, k.keyId)))
  }

  /** From the serial number on: the issuer is kept byte for byte, header and all. */
  function ReadFromSerial(time: TimeOf, b: bytes): Option<CertFacts> {
    match Skip(2, b)
    case None => None
    case Some(atIssuer) =>
      match TakeTlv(atIssuer)
      case Short => None
      case Got(_, after) => ReadFromValidity(time, atIssuer[..|atIssuer| - |after|], after)
  }

  function Facts(time: TimeOf, der: bytes): Option<CertFacts> {
    match Inside(der, 0x30)
    case None => None
    case Some(cert) =>
      match Inside(cert, 0x30)
      case None => None
      case Some(tbs) => match AfterVersion(tbs) case None => None case Some(rest) => ReadFromSerial(time, rest)
  }

  // ---- The same, as it runs --------------------------------------------------------

  method SanDnsNames(der: bytes) returns (r: Option<seq<string>>)
    ensures r == SanNames(der)
  {
    var v := Inside(der, 0x30);
    if v.None? {
      return None;
    }
    var rest, out := v.value, [];
    while rest != []
      invariant SanWalk(v.value, []) == SanWalk(rest, out)
      decreases |rest|
    {
      var t := TakeTlv(rest);
      if t.Short? {
        return None;
      }
      rest := t.rest;
      if t.value.tag == 0x82 {
        var s := Decode(t.value.value);
        if s.None? {
          return None;
        }
        out := out + [s.value];
      }
    }
    return Some(out);
  }

  method AuthorityKeyId(der: bytes) returns (r: Option<Option<bytes>>)
    ensures r == AuthorityKey(der)
  {
    var v := Inside(der, 0x30);
    if v.None? {
      return None;
    }
    var rest := v.value;
    while rest != []
      invariant KeyWalk(v.value) == KeyWalk(rest)
      decreases |rest|
    {
      var t := TakeTlv(rest);
      if t.Short? {
        return None;
      }
      rest := t.rest;
      if t.value.tag == 0x80 {
        return Some(Some(t.value.value));
      }
    }
    return Some(None);
  }

  method LearnFrom(oid: bytes, payload: Tlv, k: Known) returns (r: Option<Known>)
    ensures r == Learn(oid, payload, k)
  {
    if payload.tag != 0x04 {
      return None;
    }
    if oid == SAN_OID {
      var names := SanDnsNames(payload.value);
      return if names.None? then None else Some(k.(names := names.value));
    }
    var id := AuthorityKeyId(payload.value);
    return if id.None? then None else Some(k.(keyId := id.value));
  }

  method ReadOne(value: bytes, k: Known) returns (r: Option<Known>)
    ensures r == ReadExtension(value, k)
  {
    var oid := TakeTlv(value);
    if oid.Short? || oid.value.tag != 0x06 {
      return None;
    }
    if oid.value.value != SAN_OID && oid.value.value != AKI_OID {
      return Some(k);
    }
    var payload := TakeTlv(oid.rest);
    if payload.Short? {
      return None;
    }
    if payload.value.tag == 0x01 {
      payload := TakeTlv(payload.rest);
      if payload.Short? {
        return None;
      }
    }
    r := LearnFrom(oid.value.value, payload.value, k);
  }

  method ReadExtensions(der: bytes) returns (r: Option<Known>)
    ensures r == Extensions(der)
  {
    var v := Inside(der, 0x30);
    if v.None? {
      return None;
    }
    var rest, k := v.value, NOTHING_KNOWN;
    while rest != []
      invariant ExtensionWalk(v.value, NOTHING_KNOWN) == ExtensionWalk(rest, k)
      decreases |rest|
    {
      var t := TakeTlv(rest);
      if t.Short? || t.value.tag != 0x30 {
        return None;
      }
      var next := ReadOne(t.value.value, k);
      if next.None? {
        return None;
      }
      rest, k := t.rest, next.value;
    }
    return Some(k);
  }

  method FindAndRead(b: bytes) returns (r: Option<Known>)
    ensures r == FindExtensions(b)
  {
    var rest := b;
    while rest != []
      invariant FindExtensions(b) == FindExtensions(rest)
      decreases |rest|
    {
      var t := TakeTlv(rest);
      if t.Short? {
        return None;
      }
      rest := t.rest;
      if t.value.tag == 0xa3 {
        r := ReadExtensions(t.value.value);
        return;
      }
    }
    return Some(NOTHING_KNOWN);
  }

  /** `certificate_facts`. */
  method CertificateFacts(time: TimeOf, der: bytes) returns (r: Option<CertFacts>)
    ensures r == Facts(time, der)
  {
    var cert := Inside(der, 0x30);
    if cert.None? {
      return None;
    }
    var tbs := Inside(cert.value, 0x30);
    if tbs.None? {
      return None;
    }
    var start := AfterVersion(tbs.value);
    if start.None? {
      return None;
    }
    r := FactsFromSerial(time, start.value);
  }

  method FactsFromSerial(time: TimeOf, b: bytes) returns (r: Option<CertFacts>)
    ensures r == ReadFromSerial(time, b)
  {
    var atIssuer := Skip(2, b);
    if atIssuer.None? {
      return None;
    }
    var issuer := TakeTlv(atIssuer.value);
    if issuer.Short? {
      return None;
    }
    var nameDer := atIssuer.value[..|atIssuer.value| - |issuer.rest|];
    r := FactsFromValidity(time, nameDer, issuer.rest);
  }

  method FactsFromValidity(time: TimeOf, nameDer: bytes, b: bytes) returns (r: Option<CertFacts>)
    ensures r == ReadFromValidity(time, nameDer, b)
  {
    var validity := TakeTlv(b);
    if validity.Short? || validity.value.tag != 0x30 {
      return None;
    }
    var notAfter := ReadValidity(time, validity.value.value);
    if notAfter.None? {
      return None;
    }
    var rest := Skip(2, validity.rest);
    if rest.None? {
      return None;
    }
    var k := FindAndRead(rest.value);
    if k.None? {
      return None;
    }
    return Some(CertFacts(notAfter.value, k.value.names, Issuer(nameDer, k.value.keyId)));
  }
}
