/**
 Certificates as section 4.1 of RFC 5280 lays them out, written by a DER encoder, and the
 proof that the walk reads exactly the facts that were put in.
 */
module DerCert {
  import opened Wrappers
  import opened Text
  import opened Wire
  import opened ServingCert
  import opened Der

  /** What an extension holds, for the two identifiers the walk knows and any other. */
  datatype Content = San(names: seq<Tlv>) | Aki(fields: seq<Tlv>) | Unread(oid: bytes, octets: bytes)

  datatype Extension = Extension(critical: Option<bytes>, content: Content)

  datatype Certificate = Certificate(
    version: Option<bytes>, serial: bytes, algorithm: bytes, issuer: bytes,
    notBefore: Tlv, notAfter: Tlv, subject: bytes, publicKey: bytes,
    uniqueIds: seq<Tlv>, extensions: Option<seq<Extension>>, afterTbs: bytes)

  // ---- Writing ---------------------------------------------------------------------

  /** 2.5.29.17 and 2.5.29.35, as sections 4.2.1.6 and 4.2.1.1 of RFC 5280 assign them. */
  const ID_CE_SUBJECT_ALT_NAME: bytes := [2 * 40 + 5, 29, 17]
  const ID_CE_AUTHORITY_KEY_IDENTIFIER: bytes := [2 * 40 + 5, 29, 35]

  function PutAll(ts: seq<Tlv>): bytes {
    if ts == [] then [] else PutTlv(ts[0]) + PutAll(ts[1..])
  }

  function OidOf(c: Content): bytes {
    match c
    case San(_) => ID_CE_SUBJECT_ALT_NAME
    case Aki(_) => ID_CE_AUTHORITY_KEY_IDENTIFIER
    case Unread(oid, _) => oid
  }

  function Octets(c: Content): bytes {
    match c
    case San(names) => PutTlv(Tlv(0x30, PutAll(names)))
    case Aki(fields) => PutTlv(Tlv(0x30, PutAll(fields)))
    case Unread(_, octets) => octets
  }

  function ExtensionBody(e: Extension): bytes {
    PutTlv(Tlv(0x06, OidOf(e.content)))
    + ((match e.critical case Some(flag) => PutTlv(Tlv(0x01, flag)) case None => [])
       + PutTlv(Tlv(0x04, Octets(e.content))))
  }

  function PutExtensions(es: seq<Extension>): bytes {
    if es == [] then [] else PutTlv(Tlv(0x30, ExtensionBody(es[0]))) + PutExtensions(es[1..])
  }

  function Optional(tag: byte, v: Option<bytes>): bytes {
    match v case Some(x) => PutTlv(Tlv(tag, x)) case None => []
  }

  function ExtensionField(c: Certificate): Option<bytes> {
    match c.extensions case None => None case Some(es) => Some(PutTlv(Tlv(0x30, PutExtensions(es))))
  }

  function FromKey(c: Certificate): bytes {
    PutAll(c.uniqueIds) + Optional(0xa3, ExtensionField(c))
  }

  function Validity(c: Certificate): bytes {
    PutTlv(c.notBefore) + PutTlv(c.notAfter)
  }

  function FromValidity(c: Certificate): bytes {
    PutTlv(Tlv(0x30, Validity(c))) + (PutTlv(Tlv(0x30, c.subject)) + (PutTlv(Tlv(0x30, c.publicKey)) + FromKey(c)))
  }

  function FromSerial(c: Certificate): bytes {
    PutTlv(Tlv(0x02, c.serial)) + (PutTlv(Tlv(0x30, c.algorithm)) + (PutTlv(Tlv(0x30, c.issuer)) + FromValidity(c)))
  }

  function Tbs(c: Certificate): bytes {
    Optional(0xa0, c.version) + FromSerial(c)
  }

  function PutCertificate(c: Certificate): bytes {
    PutTlv(Tlv(0x30, PutTlv(Tlv(0x30, Tbs(c))) + c.afterTbs))
  }

  // ---- What it says ----------------------------------------------------------------

  /** The dNSNames among a list of general names, in order. */
  function DnsNames(names: seq<Tlv>): seq<string> {
    if names == [] then []
    else if names[0].tag == 0x82 && Decode(names[0].value).Some? then [Decode(names[0].value).value] + DnsNames(names[1..])
    else DnsNames(names[1..])
  }

  /** The keyIdentifier among the fields of an authority key identifier. */
  function KeyIdentifier(fields: seq<Tlv>): Option<bytes> {
    if fields == [] then None
    else if fields[0].tag == 0x80 then Some(fields[0].value)
    else KeyIdentifier(fields[1..])
  }

  function Said(es: seq<Extension>, k: Known): Known {
    if es == [] then k
    else
      match es[0].content
      case San(names) => Said(es[1..], k.(names := DnsNames(names)))
      case Aki(fields) => Said(es[1..], k.(keyId := KeyIdentifier(fields)))
      case Unread(_, _) => Said(es[1..], k)
  }

  // ---- Lengths a DER encoder can write ---------------------------------------------

  predicate Small(b: bytes) {
    |b| <= U32_MAX
  }

  predicate AllOk(ts: seq<Tlv>) {
    forall i :: 0 <= i < |ts| ==> TlvOk(ts[i])
  }

  predicate ContentOk(c: Content) {
    match c
    case San(names) =>
      AllOk(names) && Small(PutAll(names)) && forall i :: 0 <= i < |names| && names[i].tag == 0x82 ==> Decode(names[i].value).Some?
    case Aki(fields) => AllOk(fields) && Small(PutAll(fields))
    case Unread(oid, _) => oid != ID_CE_SUBJECT_ALT_NAME && oid != ID_CE_AUTHORITY_KEY_IDENTIFIER && Small(oid)
  }

  predicate ExtensionOk(e: Extension) {
    && ContentOk(e.content) && Small(Octets(e.content)) && Small(ExtensionBody(e))
    && (e.critical.Some? ==> Small(e.critical.value))
  }

  predicate CertificateOk(c: Certificate) {
    && (c.version.Some? ==> Small(c.version.value))
    && Small(c.serial) && Small(c.algorithm) && Small(c.issuer) && Small(c.subject) && Small(c.publicKey)
    && TlvOk(c.notBefore) && TlvOk(c.notAfter) && Small(Validity(c))
    && AllOk(c.uniqueIds) && (forall i :: 0 <= i < |c.uniqueIds| ==> c.uniqueIds[i].tag != 0xa3)
    && (c.extensions.Some? ==>
          && (forall i :: 0 <= i < |c.extensions.value| ==> ExtensionOk(c.extensions.value[i]))
          && Small(PutExtensions(c.extensions.value)) && Small(ExtensionField(c).value))
    && Small(Tbs(c)) && Small(PutTlv(Tlv(0x30, Tbs(c))) + c.afterTbs)
  }

  // ---- The walks read it back ------------------------------------------------------

  lemma InsideReads(tag: byte, v: bytes, rest: bytes)
    requires TlvOk(Tlv(tag, v))
    ensures Inside(PutTlv(Tlv(tag, v)) + rest, tag) == Some(v)
  {
    TlvFraming(Tlv(tag, v), rest);
  }

  lemma InsideReadsAll(tag: byte, v: bytes)
    requires TlvOk(Tlv(tag, v))
    ensures Inside(PutTlv(Tlv(tag, v)), tag) == Some(v)
  {
    InsideReads(tag, v, []);
    assert PutTlv(Tlv(tag, v)) + [] == PutTlv(Tlv(tag, v));
  }

  lemma {:induction false} SanWalkReads(names: seq<Tlv>, out: seq<string>)
    requires AllOk(names) && forall i :: 0 <= i < |names| && names[i].tag == 0x82 ==> Decode(names[i].value).Some?
    ensures SanWalk(PutAll(names), out) == Some(out + DnsNames(names))
    decreases |names|
  {
    if names == [] {
      assert out + [] == out;
    } else {
      TlvFraming(names[0], PutAll(names[1..]));
      if names[0].tag == 0x82 {
        var s := Decode(names[0].value).value;
        SanWalkReads(names[1..], out + [s]);
        assert out + ([s] + DnsNames(names[1..])) == out + [s] + DnsNames(names[1..]);
      } else {
        SanWalkReads(names[1..], out);
      }
    }
  }

  lemma {:induction false} KeyWalkReads(fields: seq<Tlv>)
    requires AllOk(fields)
    ensures KeyWalk(PutAll(fields)) == Some(KeyIdentifier(fields))
    decreases |fields|
  {
    if fields != [] {
      TlvFraming(fields[0], PutAll(fields[1..]));
      KeyWalkReads(fields[1..]);
    }
  }

  lemma LearnReads(c: Content, k: Known)
    requires ContentOk(c) && Small(Octets(c)) && !c.Unread?
    ensures Learn(OidOf(c), Tlv(0x04, Octets(c)), k) ==
            Some(if c.San? then k.(names := DnsNames(c.names)) else k.(keyId := KeyIdentifier(c.fields)))
  {
    match c {
      case San(names) =>
        InsideReadsAll(0x30, PutAll(names));
        SanWalkReads(names, []);
        assert [] + DnsNames(names) == DnsNames(names);
      case Aki(fields) =>
        InsideReadsAll(0x30, PutAll(fields));
        KeyWalkReads(fields);
        assert SAN_OID[2] != AKI_OID[2];
    }
  }

  lemma PayloadReads(critical: Option<bytes>, payload: Tlv)
    requires TlvOk(payload) && payload.tag == 0x04 && (critical.Some? ==> Small(critical.value))
    ensures var b := Optional(0x01, critical) + PutTlv(payload);
            && TakeTlv(b).Got?
            && if critical.Some?
               then TakeTlv(b).value.tag == 0x01 && TakeTlv(TakeTlv(b).rest) == Got(payload, [])
               else TakeTlv(b) == Got(payload, [])
  {
    TlvFraming(payload, []);
    assert PutTlv(payload) + [] == PutTlv(payload);
    if critical.Some? {
      TlvFraming(Tlv(0x01, critical.value), PutTlv(payload));
    } else {
      assert [] + PutTlv(payload) == PutTlv(payload);
    }
  }

  lemma ExtensionReads(e: Extension, k: Known)
    requires ExtensionOk(e)
    ensures ReadExtension(ExtensionBody(e), k) == Some(Said([e], k))
  {
    var tail := Optional(0x01, e.critical) + PutTlv(Tlv(0x04, Octets(e.content)));
    assert ExtensionBody(e) == PutTlv(Tlv(0x06, OidOf(e.content))) + tail;
    TlvFraming(Tlv(0x06, OidOf(e.content)), tail);
    SaidOne(e, k);
    if !e.content.Unread? {
      PayloadReads(e.critical, Tlv(0x04, Octets(e.content)));
      LearnReads(e.content, k);
    }
  }

  lemma SaidOne(e: Extension, k: Known)
    ensures Said([e], k) ==
            match e.content
            case San(names) => k.(names := DnsNames(names))
            case Aki(fields) => k.(keyId := KeyIdentifier(fields))
            case Unread(_, _) => k
  {
    assert [e][1..] == [];
  }

  lemma SaidNext(es: seq<Extension>, k: Known)
    requires es != []
    ensures Said(es, k) == Said(es[1..], Said([es[0]], k))
  {
    SaidOne(es[0], k);
  }

  lemma {:induction false} ExtensionsRead(es: seq<Extension>, k: Known)
    requires forall i :: 0 <= i < |es| ==> ExtensionOk(es[i])
    ensures ExtensionWalk(PutExtensions(es), k) == Some(Said(es, k))
    decreases |es|
  {
    if es != [] {
      var k1 := Said([es[0]], k);
      TlvFraming(Tlv(0x30, ExtensionBody(es[0])), PutExtensions(es[1..]));
      ExtensionReads(es[0], k);
      SaidNext(es, k);
      ExtensionsRead(es[1..], k1);
    }
  }

  /** What the extensions of a certificate say. */
  function Told(c: Certificate): Known {
    match c.extensions case None => NOTHING_KNOWN case Some(es) => Said(es, NOTHING_KNOWN)
  }

  lemma FieldReads(c: Certificate)
    requires CertificateOk(c)
    ensures FindExtensions(Optional(0xa3, ExtensionField(c))) == Some(Told(c))
  {
    if c.extensions.Some? {
      var es, field := c.extensions.value, ExtensionField(c).value;
      TlvFraming(Tlv(0xa3, field), []);
      assert PutTlv(Tlv(0xa3, field)) + [] == PutTlv(Tlv(0xa3, field));
      InsideReadsAll(0x30, PutExtensions(es));
      ExtensionsRead(es, NOTHING_KNOWN);
    }
  }

  lemma {:induction false} PastUniqueIds(ids: seq<Tlv>, rest: bytes)
    requires AllOk(ids) && forall i :: 0 <= i < |ids| ==> ids[i].tag != 0xa3
    ensures FindExtensions(PutAll(ids) + rest) == FindExtensions(rest)
    decreases |ids|
  {
    if ids == [] {
      assert [] + rest == rest;
    } else {
      assert PutAll(ids) + rest == PutTlv(ids[0]) + (PutAll(ids[1..]) + rest);
      TlvFraming(ids[0], PutAll(ids[1..]) + rest);
      PastUniqueIds(ids[1..], rest);
    }
  }

  lemma SkipTwo(t: Tlv, u: Tlv, rest: bytes)
    requires TlvOk(t) && TlvOk(u)
    ensures Skip(2, PutTlv(t) + (PutTlv(u) + rest)) == Some(rest)
  {
    TlvFraming(t, PutTlv(u) + rest);
    TlvFraming(u, rest);
    assert Skip(1, PutTlv(u) + rest) == Skip(0, rest);
  }

  lemma ValidityReads(time: TimeOf, c: Certificate)
    requires CertificateOk(c)
    ensures ReadValidity(time, Validity(c)) == time(c.notAfter)
  {
    TlvFraming(c.notBefore, PutTlv(c.notAfter));
    TlvFraming(c.notAfter, []);
    assert PutTlv(c.notAfter) + [] == PutTlv(c.notAfter);
  }

  lemma FromValidityReads(time: TimeOf, nameDer: bytes, c: Certificate, t: int)
    requires CertificateOk(c) && time(c.notAfter) == Some(t)
    ensures ReadFromValidity(time, nameDer, FromValidity(c)) ==
            Some(CertFacts(t, Told(c).names, Issuer(nameDer, Told(c).keyId)))
  {
    var tail := PutTlv(Tlv(0x30, c.subject)) + (PutTlv(Tlv(0x30, c.publicKey)) + FromKey(c));
    TlvFraming(Tlv(0x30, Validity(c)), tail);
    ValidityReads(time, c);
    SkipTwo(Tlv(0x30, c.subject), Tlv(0x30, c.publicKey), FromKey(c));
    PastUniqueIds(c.uniqueIds, Optional(0xa3, ExtensionField(c)));
    FieldReads(c);
  }

  lemma FromSerialReads(time: TimeOf, c: Certificate, t: int)
    requires CertificateOk(c) && time(c.notAfter) == Some(t)
    ensures ReadFromSerial(time, FromSerial(c)) ==
            Some(CertFacts(t, Told(c).names, Issuer(PutTlv(Tlv(0x30, c.issuer)), Told(c).keyId)))
  {
    var name, tail := PutTlv(Tlv(0x30, c.issuer)), FromValidity(c);
    SkipTwo(Tlv(0x02, c.serial), Tlv(0x30, c.algorithm), name + tail);
    TlvFraming(Tlv(0x30, c.issuer), tail);
    assert (name + tail)[..|name + tail| - |tail|] == name;
    FromValidityReads(time, name, c, t);
  }

  lemma VersionSkipped(c: Certificate)
    requires CertificateOk(c)
    ensures AfterVersion(Tbs(c)) == Some(FromSerial(c))
  {
    if c.version.Some? {
      TlvFraming(Tlv(0xa0, c.version.value), FromSerial(c));
    } else {
      assert [] + FromSerial(c) == FromSerial(c);
      TlvFraming(Tlv(0x02, c.serial), PutTlv(Tlv(0x30, c.algorithm)) + (PutTlv(Tlv(0x30, c.issuer)) + FromValidity(c)));
    }
  }

  /** The facts read from a certificate are the ones it was written with: when it expires, its
      dNSNames in order, its issuer byte for byte, and its authority's key identifier. */
  lemma FactsOfCertificate(time: TimeOf, c: Certificate, t: int)
    requires CertificateOk(c) && time(c.notAfter) == Some(t)
    ensures Facts(time, PutCertificate(c)) ==
            Some(CertFacts(t, Told(c).names, Issuer(PutTlv(Tlv(0x30, c.issuer)), Told(c).keyId)))
  {
    var tbs := Tbs(c);
    InsideReadsAll(0x30, PutTlv(Tlv(0x30, tbs)) + c.afterTbs);
    InsideReads(0x30, tbs, c.afterTbs);
    VersionSkipped(c);
    FromSerialReads(time, c, t);
  }

  predicate NoSan(es: seq<Extension>) {
    forall i :: 0 <= i < |es| ==> !es[i].content.San?
  }

  predicate NoAki(es: seq<Extension>) {
    forall i :: 0 <= i < |es| ==> !es[i].content.Aki?
  }

  lemma {:induction false} Unsaid(es: seq<Extension>, k: Known)
    ensures NoSan(es) ==> Said(es, k).names == k.names
    ensures NoAki(es) ==> Said(es, k).keyId == k.keyId
    decreases |es|
  {
    if es != [] {
      SaidNext(es, k);
      SaidOne(es[0], k);
      Unsaid(es[1..], Said([es[0]], k));
    }
  }

  /** With one subjectAltName, wherever it stands, the names are its dNSNames ... */
  lemma {:induction false} OneSan(before: seq<Extension>, e: Extension, after: seq<Extension>, k: Known)
    requires e.content.San? && NoSan(before) && NoSan(after)
    ensures Said(before + [e] + after, k).names == DnsNames(e.content.names)
    decreases |before|
  {
    var es := before + [e] + after;
    SaidNext(es, k);
    if before == [] {
      assert es[1..] == after;
      SaidOne(e, k);
      Unsaid(after, Said([e], k));
    } else {
      assert es[1..] == before[1..] + [e] + after;
      OneSan(before[1..], e, after, Said([es[0]], k));
    }
  }

  /** ... and with one authorityKeyIdentifier the key is its keyIdentifier. */
  lemma {:induction false} OneAki(before: seq<Extension>, e: Extension, after: seq<Extension>, k: Known)
    requires e.content.Aki? && NoAki(before) && NoAki(after)
    ensures Said(before + [e] + after, k).keyId == KeyIdentifier(e.content.fields)
    decreases |before|
  {
    var es := before + [e] + after;
    SaidNext(es, k);
    if before == [] {
      assert es[1..] == after;
      SaidOne(e, k);
      Unsaid(after, Said([e], k));
    } else {
      assert es[1..] == before[1..] + [e] + after;
      OneAki(before[1..], e, after, Said([es[0]], k));
    }
  }
}
