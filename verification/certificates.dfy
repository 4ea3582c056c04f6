/** Construction of the VPN's X.509 certificates: the root CA and the leaf
    certificates it signs. A certificate is a record of the fields the
    wizard sets; key generation, signing and PEM conversion belong to the
    crypto library and appear here as the oracle record `Forge`. */
module Certificates {
  import opened Wrappers
  import opened Strings
  import opened Js
  import opened Calendar

  // ---------------------------------------------------------------------------
  // dos2unix
  // ---------------------------------------------------------------------------

  /** Replaces every CRLF pair, scanning left to right without overlap, by a
      single LF; every other character is kept. */
  function RemoveCarriageReturns(s: string): (r: string)
    ensures |r| <= |s|
    decreases |s|
  {
    if |s| == 0 then ""
    else if |s| >= 2 && s[0] == '\r' && s[1] == '\n' then "\n" + RemoveCarriageReturns(s[2..])
    else [s[0]] + RemoveCarriageReturns(s[1..])
  }

  /** unix2dos, the inverse direction: every LF becomes CRLF. */
  function AddCarriageReturns(t: string): (r: string)
    ensures |r| >= |t|
    ensures |t| > 0 ==> |r| > 0 && (r[0] == '\n' <==> false) && (r[0] == '\r' <==> t[0] == '\n' || t[0] == '\r')
    decreases |t|
  {
    if |t| == 0 then ""
    else if t[0] == '\n' then "\r\n" + AddCarriageReturns(t[1..])
    else [t[0]] + AddCarriageReturns(t[1..])
  }

  /** Every carriage return is the first half of a CRLF pair, as in the PEM
      text the crypto library produces. */
  predicate CrOnlyBeforeLf(s: string) {
    forall i :: 0 <= i < |s| && s[i] == '\r' ==> i + 1 < |s| && s[i + 1] == '\n'
  }

  /** Every line feed is the second half of a CRLF pair. */
  predicate LfOnlyAfterCr(s: string) {
    forall i :: 0 <= i < |s| && s[i] == '\n' ==> i > 0 && s[i - 1] == '\r'
  }

  /** Removing carriage returns undoes unix2dos on every text. */
  lemma {:induction false} RemoveAddCarriageReturns(t: string)
    ensures RemoveCarriageReturns(AddCarriageReturns(t)) == t
    decreases |t|
  {
    if |t| > 0 {
      RemoveAddCarriageReturns(t[1..]);
      var s := AddCarriageReturns(t);
      if t[0] == '\n' {
        assert s[2..] == AddCarriageReturns(t[1..]);
      } else {
        assert s[1..] == AddCarriageReturns(t[1..]);
        assert !(|s| >= 2 && s[0] == '\r' && s[1] == '\n');
      }
      assert t == [t[0]] + t[1..];
    }
  }

  /** On text whose carriage returns all precede a line feed, the result has
      no carriage return left and is shorter by exactly the number of CRLF
      pairs. */
  lemma {:induction false} RemoveCarriageReturnsClean(s: string)
    requires CrOnlyBeforeLf(s)
    ensures '\r' !in RemoveCarriageReturns(s)
    ensures |RemoveCarriageReturns(s)| == |s| - CountChar(s, '\r')
    decreases |s|
  {
    if |s| > 0 {
      if |s| >= 2 && s[0] == '\r' && s[1] == '\n' {
        assert CrOnlyBeforeLf(s[2..]) by {
          forall i | 0 <= i < |s[2..]| && s[2..][i] == '\r'
            ensures i + 1 < |s[2..]| && s[2..][i + 1] == '\n'
          {
            assert s[i + 2] == '\r';
          }
        }
        RemoveCarriageReturnsClean(s[2..]);
        assert s[1..][1..] == s[2..];
      } else {
        assert CrOnlyBeforeLf(s[1..]) by {
          forall i | 0 <= i < |s[1..]| && s[1..][i] == '\r'
            ensures i + 1 < |s[1..]| && s[1..][i + 1] == '\n'
          {
            assert s[i + 1] == '\r';
          }
        }
        RemoveCarriageReturnsClean(s[1..]);
      }
    }
  }

  /** On CRLF text (every CR before an LF and every LF after a CR), unix2dos
      restores exactly what dos2unix removed. */
  lemma {:induction false} AddRemoveCarriageReturns(s: string)
    requires CrOnlyBeforeLf(s) && LfOnlyAfterCr(s)
    ensures AddCarriageReturns(RemoveCarriageReturns(s)) == s
    decreases |s|
  {
    if |s| > 0 {
      if |s| >= 2 && s[0] == '\r' && s[1] == '\n' {
        var u := s[2..];
        assert CrOnlyBeforeLf(u) by {
          forall i | 0 <= i < |u| && u[i] == '\r' ensures i + 1 < |u| && u[i + 1] == '\n' {
            assert s[i + 2] == '\r';
          }
        }
        assert LfOnlyAfterCr(u) by {
          forall i | 0 <= i < |u| && u[i] == '\n' ensures i > 0 && u[i - 1] == '\r' {
            assert s[i + 2] == '\n';
            assert s[i + 1] == '\r';
            assert i + 1 != 1;
          }
        }
        AddRemoveCarriageReturns(u);
        assert s == "\r\n" + u;
      } else {
        var u := s[1..];
        assert CrOnlyBeforeLf(u) by {
          forall i | 0 <= i < |u| && u[i] == '\r' ensures i + 1 < |u| && u[i + 1] == '\n' {
            assert s[i + 1] == '\r';
          }
        }
        assert LfOnlyAfterCr(u) by {
          forall i | 0 <= i < |u| && u[i] == '\n' ensures i > 0 && u[i - 1] == '\r' {
            assert s[i + 1] == '\n';
          }
        }
        AddRemoveCarriageReturns(u);
        assert s == [s[0]] + u;
      }
    }
  }

  /** Two carriage returns before a line feed: only the second pairs up. */
  lemma LoneCarriageReturnKept()
    ensures RemoveCarriageReturns("\r\r\n") == "\r\n"
  {
    assert "\r\r\n"[1..] == "\r\n";
    assert "\r\n"[2..] == "";
  }

  // ---------------------------------------------------------------------------
  // Certificate records
  // ---------------------------------------------------------------------------

  /** The distinguished-name attributes a subject may carry. An e-mail
      address is not among them. */
  datatype AttributeName =
    CommonName | CountryName | StateOrProvinceName | LocalityName | OrganizationName | OrganizationalUnitName

  /** The option key an attribute is read from (also its name in the library). */
  function Key(n: AttributeName): string {
    match n
    case CommonName => "commonName"
    case CountryName => "countryName"
    case StateOrProvinceName => "stateOrProvinceName"
    case LocalityName => "localityName"
    case OrganizationName => "organizationName"
    case OrganizationalUnitName => "organizationalUnitName"
  }

  /** The attribute names in the order they appear in a subject. */
  const SubjectAttributeNames: seq<AttributeName> :=
    [CommonName, CountryName, StateOrProvinceName, LocalityName, OrganizationName, OrganizationalUnitName]

  /** The position of a name in `SubjectAttributeNames`. */
  function Rank(n: AttributeName): (k: nat)
    ensures k < 6
  {
    match n
    case CommonName => 0
    case CountryName => 1
    case StateOrProvinceName => 2
    case LocalityName => 3
    case OrganizationName => 4
    case OrganizationalUnitName => 5
  }

  datatype Attribute = Attribute(name: AttributeName, value: Value)

  /** General-name tags of a subjectAltName entry (section 4.2.1.6 of RFC 5280). */
  const GeneralNameUri: nat := 6
  const GeneralNameIp: nat := 7

  datatype AltName = AltName(tag: nat, value: string)

  datatype Extension =
    | BasicConstraints(cA: bool)
    | KeyUsage(uses: seq<string>)
    | ExtKeyUsage(purposes: seq<string>)
    | NsCertType(kinds: seq<string>)
    | SubjectAltName(names: seq<AltName>)
    | SubjectKeyIdentifier

  /** The six extensions every CA certificate carries, in order. */
  const CaExtensions: seq<Extension> := [
    BasicConstraints(true),
    KeyUsage(["keyCertSign", "digitalSignature", "nonRepudiation", "keyEncipherment", "dataEncipherment"]),
    ExtKeyUsage(["serverAuth", "clientAuth", "codeSigning", "emailProtection", "timeStamping"]),
    NsCertType(["client", "server", "email", "objsign", "sslCA", "emailCA", "objCA"]),
    SubjectAltName([AltName(GeneralNameUri, "http://example.org/webid#me"), AltName(GeneralNameIp, "127.0.0.1")]),
    SubjectKeyIdentifier
  ]

  /** Keys are known only by identity; their material stays in the library. */
  datatype PublicKey = PublicKey(id: nat)
  datatype PrivateKey = PrivateKey(id: nat)
  datatype KeyPair = KeyPair(publicKey: PublicKey, privateKey: PrivateKey)

  /** The fields of a certificate the wizard sets. `serialNumber` is `None`
      when the library's default serial is left in place; `signedWith` is the
      key the certificate was signed with. */
  datatype Certificate = Certificate(
    publicKey: PublicKey,
    serialNumber: Option<string>,
    notBefore: Date,
    notAfter: Date,
    subject: seq<Attribute>,
    issuer: seq<Attribute>,
    extensions: seq<Extension>,
    signedWith: Option<PrivateKey>)

  /** The crypto library as seen by the wizard. `rsaGenerate(bits, entropy)`
      is the outcome of one key-generation callback (`bits` is the `keysize`
      argument as passed, `entropy` stands for the random state); the other
      fields are the library's PEM writers and readers. */
  datatype Forge = Forge(
    rsaGenerate: (Value, nat) -> Result<KeyPair, string>,
    privateKeyToPem: PrivateKey -> string,
    encryptRsaPrivateKey: (PrivateKey, Value) -> string,
    certificateToPem: Certificate -> string,
    privateKeyFromPem: string -> Result<PrivateKey, string>,
    certificateFromPem: string -> Result<Certificate, string>)

  /** The options a certificate is built from: the form holding the subject
      fields, and the optional validity bounds, key size and key password. */
  datatype CertOptions = CertOptions(
    attrs: Form,
    validityStart: Option<Date>,
    validityEnd: Option<Date>,
    keySize: Option<Value>,
    password: Option<Value>)

  // ---------------------------------------------------------------------------
  // Subject attributes
  // ---------------------------------------------------------------------------

  /** The attributes drawn from `SubjectAttributeNames[from..]` whose option is truthy. */
  function AttributesFrom(options: Form, from: nat): (attrs: seq<Attribute>)
    requires from <= |SubjectAttributeNames|
    ensures |attrs| <= |SubjectAttributeNames| - from
    decreases |SubjectAttributeNames| - from
  {
    if from == |SubjectAttributeNames| then []
    else
      var n := SubjectAttributeNames[from];
      var rest := AttributesFrom(options, from + 1);
      if TruthyAt(options, Key(n)) then [Attribute(n, options[Key(n)])] + rest else rest
  }

  /** Every attribute comes at or after position `from`, has a truthy option
      and carries that option's value. */
  predicate DrawnFrom(options: Form, from: nat, attrs: seq<Attribute>) {
    forall k :: 0 <= k < |attrs| ==> DrawnAttribute(options, from, attrs[k])
  }

  predicate DrawnAttribute(options: Form, from: nat, a: Attribute) {
    Rank(a.name) >= from && TruthyAt(options, Key(a.name)) && a.value == options[Key(a.name)]
  }

  /** The attributes follow the listed order, each name at most once. */
  predicate InListedOrder(attrs: seq<Attribute>) {
    forall k, l :: 0 <= k < l < |attrs| ==> Rank(attrs[k].name) < Rank(attrs[l].name)
  }

  /** No name at or after position `from` whose option is truthy is missing. */
  predicate Covers(options: Form, from: nat, attrs: seq<Attribute>) {
    forall n :: Rank(n) >= from && TruthyAt(options, Key(n)) ==>
      exists k :: 0 <= k < |attrs| && attrs[k].name == n
  }

  lemma {:induction false} AttributesFromDrawn(options: Form, from: nat)
    requires from <= |SubjectAttributeNames|
    ensures DrawnFrom(options, from, AttributesFrom(options, from))
    decreases |SubjectAttributeNames| - from
  {
    if from < |SubjectAttributeNames| {
      AttributesFromDrawn(options, from + 1);
      var n := SubjectAttributeNames[from];
      var rest := AttributesFrom(options, from + 1);
      assert DrawnFrom(options, from, rest);
      if TruthyAt(options, Key(n)) {
        var attrs := [Attribute(n, options[Key(n)])] + rest;
        assert AttributesFrom(options, from) == attrs;
        assert DrawnAttribute(options, from, attrs[0]);
        assert DrawnFrom(options, from, attrs);
      } else {
        assert AttributesFrom(options, from) == rest;
      }
    }
  }

  lemma {:induction false} AttributesFromOrdered(options: Form, from: nat)
    requires from <= |SubjectAttributeNames|
    ensures InListedOrder(AttributesFrom(options, from))
    decreases |SubjectAttributeNames| - from
  {
    if from < |SubjectAttributeNames| {
      AttributesFromDrawn(options, from + 1);
      AttributesFromOrdered(options, from + 1);
      var n := SubjectAttributeNames[from];
      var rest := AttributesFrom(options, from + 1);
      if TruthyAt(options, Key(n)) {
        var attrs := [Attribute(n, options[Key(n)])] + rest;
        assert AttributesFrom(options, from) == attrs;
        assert Rank(n) == from;
        forall k, l | 0 <= k < l < |attrs| ensures Rank(attrs[k].name) < Rank(attrs[l].name) {
          assert attrs[l] == rest[l - 1];
          assert DrawnAttribute(options, from + 1, rest[l - 1]);
          if k > 0 {
            assert attrs[k] == rest[k - 1];
          }
        }
      } else {
        assert AttributesFrom(options, from) == rest;
      }
    }
  }

  lemma {:induction false} AttributesFromCovers(options: Form, from: nat)
    requires from <= |SubjectAttributeNames|
    ensures Covers(options, from, AttributesFrom(options, from))
    decreases |SubjectAttributeNames| - from
  {
    if from < |SubjectAttributeNames| {
      AttributesFromCovers(options, from + 1);
      var n := SubjectAttributeNames[from];
      var rest := AttributesFrom(options, from + 1);
      if TruthyAt(options, Key(n)) {
        var a := Attribute(n, options[Key(n)]);
        assert AttributesFrom(options, from) == [a] + rest;
        CoversWithHead(options, from, a, rest);
      } else {
        assert AttributesFrom(options, from) == rest;
        CoversWithoutHead(options, from, rest);
      }
    }
  }

  /** The only name ranked `from` is the one listed there. */
  lemma RankedAt(m: AttributeName, from: nat)
    requires from < |SubjectAttributeNames| && Rank(m) == from
    ensures m == SubjectAttributeNames[from]
  {
  }

  lemma CoversWithHead(options: Form, from: nat, a: Attribute, rest: seq<Attribute>)
    requires from < |SubjectAttributeNames| && a.name == SubjectAttributeNames[from]
    requires Covers(options, from + 1, rest)
    ensures Covers(options, from, [a] + rest)
  {
    var attrs := [a] + rest;
    forall m | Rank(m) >= from && TruthyAt(options, Key(m))
      ensures exists k :: 0 <= k < |attrs| && attrs[k].name == m
    {
      if Rank(m) == from {
        RankedAt(m, from);
        assert attrs[0].name == m;
      } else {
        var k :| 0 <= k < |rest| && rest[k].name == m;
        assert attrs[k + 1] == rest[k];
      }
    }
  }

  lemma CoversWithoutHead(options: Form, from: nat, rest: seq<Attribute>)
    requires from < |SubjectAttributeNames|
    requires !TruthyAt(options, Key(SubjectAttributeNames[from]))
    requires Covers(options, from + 1, rest)
    ensures Covers(options, from, rest)
  {
    forall m | Rank(m) >= from && TruthyAt(options, Key(m))
      ensures exists k :: 0 <= k < |rest| && rest[k].name == m
    {
      if Rank(m) == from {
        RankedAt(m, from);
      }
    }
  }

  /** The subject (and, for the CA, issuer) attributes built from the options:
      exactly the names whose option is truthy, each paired with its option
      value, in the listed order. */
  function SubjectAttributes(options: Form): (attrs: seq<Attribute>)
    ensures forall k :: 0 <= k < |attrs| ==>
      TruthyAt(options, Key(attrs[k].name)) && attrs[k].value == options[Key(attrs[k].name)]
    ensures forall k, l :: 0 <= k < l < |attrs| ==> Rank(attrs[k].name) < Rank(attrs[l].name)
    ensures forall n :: TruthyAt(options, Key(n)) <==> exists k :: 0 <= k < |attrs| && attrs[k].name == n
  {
    AttributesFromDrawn(options, 0);
    AttributesFromOrdered(options, 0);
    AttributesFromCovers(options, 0);
    AttributesFrom(options, 0)
  }

  /** An e-mail address never enters a subject, whatever the options hold. */
  lemma SubjectHasNoEmail(options: Form)
    ensures forall a :: a in SubjectAttributes(options) ==> Key(a.name) != "emailAddress"
  {
    forall a | a in SubjectAttributes(options) ensures Key(a.name) != "emailAddress" {
      assert Key(a.name)[0] == 'c' || Key(a.name)[0] == 's' || Key(a.name)[0] == 'l' || Key(a.name)[0] == 'o';
    }
  }

  /** The subject depends only on the six listed option keys: forms that agree
      on them give the same subject. */
  lemma {:induction false} SubjectOnlyReadsListedKeys(f: Form, g: Form, from: nat)
    requires from <= |SubjectAttributeNames|
    requires forall n: AttributeName :: (Key(n) in f <==> Key(n) in g) && (Key(n) in f ==> f[Key(n)] == g[Key(n)])
    ensures AttributesFrom(f, from) == AttributesFrom(g, from)
    decreases |SubjectAttributeNames| - from
  {
    if from < |SubjectAttributeNames| {
      SubjectOnlyReadsListedKeys(f, g, from + 1);
    }
  }

  // ---------------------------------------------------------------------------
  // Keys
  // ---------------------------------------------------------------------------

  /** A generated key pair with its private key in PEM text. */
  datatype GeneratedKey = GeneratedKey(keys: KeyPair, privateKeyPem: string)

  /** The private-key PEM the library is asked for: encrypted with the
      password when the password is truthy, plain otherwise. */
  function PrivateKeyPemOf(forge: Forge, key: PrivateKey, password: Option<Value>): string {
    if password.Some? && Truthy(password.value) then forge.encryptRsaPrivateKey(key, password.value)
    else forge.privateKeyToPem(key)
  }

  /** `generateKeyPair(keysize = 2048, encryptWithPassword)`: a failed
      generation rejects with the library's error; otherwise the key pair
      comes back with its PEM, encrypted iff a truthy password is given, and
      normalised to LF line ends. */
  function GenerateKeyPair(forge: Forge, keySize: Option<Value>, password: Option<Value>, entropy: nat)
    : (r: Result<GeneratedKey, string>)
    ensures r.Failure? <==> forge.rsaGenerate(keySize.GetOr(Num(Finite(2048.0))), entropy).Failure?
    ensures r.Success? ==> r.value.keys == forge.rsaGenerate(keySize.GetOr(Num(Finite(2048.0))), entropy).value
    ensures r.Success? && password.Some? && Truthy(password.value) ==>
      r.value.privateKeyPem == RemoveCarriageReturns(forge.encryptRsaPrivateKey(r.value.keys.privateKey, password.value))
    ensures r.Success? && !(password.Some? && Truthy(password.value)) ==>
      r.value.privateKeyPem == RemoveCarriageReturns(forge.privateKeyToPem(r.value.keys.privateKey))
  {
    var bits := keySize.GetOr(Num(Finite(2048.0)));
    match forge.rsaGenerate(bits, entropy)
    case Failure(e) => Failure(e)
    case Success(keys) =>
      Success(GeneratedKey(keys, RemoveCarriageReturns(PrivateKeyPemOf(forge, keys.privateKey, password))))
  }

  /** When the library writes its PEM with CRLF line ends, the stored private
      key PEM holds no carriage return at all. */
  lemma GeneratedKeyPemHasNoCarriageReturn(forge: Forge, keySize: Option<Value>, password: Option<Value>, entropy: nat)
    requires forge.rsaGenerate(keySize.GetOr(Num(Finite(2048.0))), entropy).Success?
    requires CrOnlyBeforeLf(PrivateKeyPemOf(forge, forge.rsaGenerate(keySize.GetOr(Num(Finite(2048.0))), entropy).value.privateKey, password))
    ensures GenerateKeyPair(forge, keySize, password, entropy).Success?
    ensures '\r' !in GenerateKeyPair(forge, keySize, password, entropy).value.privateKeyPem
  {
    var keys := forge.rsaGenerate(keySize.GetOr(Num(Finite(2048.0))), entropy).value;
    RemoveCarriageReturnsClean(PrivateKeyPemOf(forge, keys.privateKey, password));
  }

  // ---------------------------------------------------------------------------
  // Validity
  // ---------------------------------------------------------------------------

  datatype Validity = Validity(notBefore: Date, notAfter: Date)

  /** notBefore is the given start or `now`, the clock read as the build
      starts; notAfter is the given end, or else `later`, the clock read
      again once the key pair is generated, moved to the year after
      notBefore's year. */
  function ValidityOf(start: Option<Date>, end: Option<Date>, now: Date, later: Date): (v: Validity)
    requires Valid(now) && Valid(later)
    ensures v.notBefore == start.GetOr(now)
    ensures end.Some? ==> v.notAfter == end.value
    ensures end.None? ==> Valid(v.notAfter) && v.notAfter.year == v.notBefore.year + 1
    ensures end.None? && !(later.month == 2 && later.day == 29) ==>
      v.notAfter.month == later.month && v.notAfter.day == later.day && v.notAfter.timeOfDay == later.timeOfDay
  {
    var notBefore := start.GetOr(now);
    if end.Some? then Validity(notBefore, end.value)
    else Validity(notBefore, SetFullYear(later, notBefore.year + 1))
  }

  /** Without an explicit end, a certificate starting now ends on the day
      and at the time of the second clock read, in the year after now's
      year (29 February moving on to 1 March); when both reads fall on the
      same instant, that is exactly one calendar year. */
  lemma DefaultValidityIsOneYear(now: Date, later: Date)
    requires Valid(now) && Valid(later) && !(later.month == 2 && later.day == 29)
    ensures ValidityOf(None, None, now, later).notAfter == later.(year := now.year + 1)
    ensures later == now ==> ValidityOf(None, None, now, later).notAfter == now.(year := now.year + 1)
  {
  }

  /** Key generation that runs past midnight on 31 December: a certificate
      started at 23:59:59 on 31 December 2025 whose key pair is ready at
      00:00:01 on 1 January 2026 ends at that very moment, two seconds
      after it starts. */
  lemma KeyGenerationAcrossNewYear()
    ensures var v := ValidityOf(None, None, Date(2025, 12, 31, 86399000), Date(2026, 1, 1, 1000));
      v.notBefore == Date(2025, 12, 31, 86399000) && v.notAfter == Date(2026, 1, 1, 1000)
  {
  }

  /** Because notAfter is built from today rather than from notBefore, a
      start on 31 December of last year with today 1 January ends the
      validity on today's date: one day instead of one year. */
  lemma DevStartAcrossNewYear()
    ensures ValidityOf(Some(Date(2025, 12, 31, 0)), None, Date(2026, 1, 1, 0), Date(2026, 1, 1, 0)).notAfter
         == Date(2026, 1, 1, 0)
  {
  }

  // ---------------------------------------------------------------------------
  // buildCA, buildClientCertificate, readExistingCA
  // ---------------------------------------------------------------------------

  datatype CaBundle = CaBundle(caCert: Certificate, caPrivateKey: PrivateKey, caCertPem: string, caPrivateKeyPem: string)

  datatype LeafBundle = LeafBundle(cert: Certificate, certPem: string, privateKeyPem: string)

  /** The root CA certificate before it is converted to PEM. */
  function CaCertificate(keys: KeyPair, options: CertOptions, now: Date, later: Date): (c: Certificate)
    requires Valid(now) && Valid(later)
    ensures c.serialNumber == Some("01")
    ensures c.issuer == c.subject == SubjectAttributes(options.attrs)
    ensures c.extensions == CaExtensions && c.extensions[0] == BasicConstraints(true)
    ensures c.publicKey == keys.publicKey && c.signedWith == Some(keys.privateKey)
    ensures c.notBefore == options.validityStart.GetOr(now)
  {
    var validity := ValidityOf(options.validityStart, options.validityEnd, now, later);
    var subject := SubjectAttributes(options.attrs);
    Certificate(keys.publicKey, Some("01"), validity.notBefore, validity.notAfter,
                subject, subject, CaExtensions, Some(keys.privateKey))
  }

  /** `buildCA(options)`: a self-signed root CA with serial "01", issuer equal
      to subject, the six CA extensions, an unencrypted private key, and its
      certificate PEM normalised to LF line ends. Fails only when key
      generation fails. */
  function BuildCA(forge: Forge, options: CertOptions, now: Date, later: Date, entropy: nat): (r: Result<CaBundle, string>)
    requires Valid(now) && Valid(later)
    ensures r.Failure? <==> GenerateKeyPair(forge, options.keySize, None, entropy).Failure?
    ensures r.Success? ==>
      var ca := r.value.caCert;
      var key := GenerateKeyPair(forge, options.keySize, None, entropy).value;
      && ca.serialNumber == Some("01")
      && ca.issuer == ca.subject == SubjectAttributes(options.attrs)
      && ca.extensions == CaExtensions
      && ca.publicKey == key.keys.publicKey
      && ca.signedWith == Some(r.value.caPrivateKey)
      && r.value.caPrivateKey == key.keys.privateKey
      && ca.notBefore == options.validityStart.GetOr(now)
      && ca.notAfter == ValidityOf(options.validityStart, options.validityEnd, now, later).notAfter
      && r.value.caPrivateKeyPem == RemoveCarriageReturns(forge.privateKeyToPem(key.keys.privateKey))
      && r.value.caCertPem == RemoveCarriageReturns(forge.certificateToPem(ca))
  {
    // the CA key is generated without a password
    var key :- GenerateKeyPair(forge, options.keySize, None, entropy);
    var ca := CaCertificate(key.keys, options, now, later);
    Success(CaBundle(ca, key.keys.privateKey, RemoveCarriageReturns(forge.certificateToPem(ca)), key.privateKeyPem))
  }

  /** A leaf certificate before it is converted to PEM. */
  function LeafCertificate(caCert: Certificate, caPrivateKey: PrivateKey, keys: KeyPair, options: CertOptions, now: Date, later: Date)
    : (c: Certificate)
    requires Valid(now) && Valid(later)
    ensures c.serialNumber.None? && c.extensions == []
    ensures c.issuer == caCert.subject && c.subject == SubjectAttributes(options.attrs)
    ensures c.publicKey == keys.publicKey && c.signedWith == Some(caPrivateKey)
  {
    var validity := ValidityOf(options.validityStart, options.validityEnd, now, later);
    Certificate(keys.publicKey, None, validity.notBefore, validity.notAfter,
                SubjectAttributes(options.attrs), caCert.subject, [], Some(caPrivateKey))
  }

  /** `buildClientCertificate(caCert, caPrivateKey, options)`: a certificate
      for a fresh key pair, issued by the CA's subject, signed with the CA
      key, with no serial of its own and no extensions. The private key PEM
      is encrypted iff a truthy password is given; the certificate PEM is
      left exactly as the library writes it. */
  function BuildClientCertificate(forge: Forge, caCert: Certificate, caPrivateKey: PrivateKey, options: CertOptions,
                                  now: Date, later: Date, entropy: nat): (r: Result<LeafBundle, string>)
    requires Valid(now) && Valid(later)
    ensures r.Failure? <==> GenerateKeyPair(forge, options.keySize, options.password, entropy).Failure?
    ensures r.Success? ==>
      var c := r.value.cert;
      var key := GenerateKeyPair(forge, options.keySize, options.password, entropy).value;
      && c.serialNumber.None?
      && c.extensions == []
      && c.issuer == caCert.subject
      && c.subject == SubjectAttributes(options.attrs)
      && c.publicKey == key.keys.publicKey
      && c.signedWith == Some(caPrivateKey)
      && c.notBefore == options.validityStart.GetOr(now)
      && c.notAfter == ValidityOf(options.validityStart, options.validityEnd, now, later).notAfter
      && r.value.privateKeyPem == key.privateKeyPem
      && r.value.certPem == forge.certificateToPem(c)
  {
    var key :- GenerateKeyPair(forge, options.keySize, options.password, entropy);
    var c := LeafCertificate(caCert, caPrivateKey, key.keys, options, now, later);
    Success(LeafBundle(c, forge.certificateToPem(c), key.privateKeyPem))
  }

  datatype LoadedCa = LoadedCa(caCert: Certificate, caPrivateKey: PrivateKey)

  /** `readExistingCA(caPrivateKeyPem, caCertPem)`: parses the key first and
      then the certificate; the first parse error rejects. */
  function ReadExistingCA(forge: Forge, caPrivateKeyPem: string, caCertPem: string): (r: Result<LoadedCa, string>)
    ensures r.Success? <==> forge.privateKeyFromPem(caPrivateKeyPem).Success? && forge.certificateFromPem(caCertPem).Success?
    ensures forge.privateKeyFromPem(caPrivateKeyPem).Failure? ==> r == Failure(forge.privateKeyFromPem(caPrivateKeyPem).error)
    ensures r.Success? ==> r.value == LoadedCa(forge.certificateFromPem(caCertPem).value, forge.privateKeyFromPem(caPrivateKeyPem).value)
  {
    var key :- forge.privateKeyFromPem(caPrivateKeyPem);
    var cert :- forge.certificateFromPem(caCertPem);
    Success(LoadedCa(cert, key))
  }

  /** The library's readers invert its writers on LF-normalised PEM text. */
  ghost predicate PemReadersInvertWriters(forge: Forge) {
    && (forall k: PrivateKey ::
          forge.privateKeyFromPem(RemoveCarriageReturns(forge.privateKeyToPem(k))) == Success(k))
    && (forall c: Certificate ::
          forge.certificateFromPem(RemoveCarriageReturns(forge.certificateToPem(c))) == Success(c))
  }

  /** Reading back the two PEM files a CA build wrote gives the very CA
      certificate and key that were built. */
  lemma ReadBackBuiltCA(forge: Forge, options: CertOptions, now: Date, later: Date, entropy: nat)
    requires Valid(now) && Valid(later)
    requires PemReadersInvertWriters(forge)
    requires BuildCA(forge, options, now, later, entropy).Success?
    ensures var ca := BuildCA(forge, options, now, later, entropy).value;
      ReadExistingCA(forge, ca.caPrivateKeyPem, ca.caCertPem) == Success(LoadedCa(ca.caCert, ca.caPrivateKey))
  {
    var ca := BuildCA(forge, options, now, later, entropy).value;
    assert forge.privateKeyFromPem(RemoveCarriageReturns(forge.privateKeyToPem(ca.caPrivateKey))) == Success(ca.caPrivateKey);
    assert forge.certificateFromPem(RemoveCarriageReturns(forge.certificateToPem(ca.caCert))) == Success(ca.caCert);
  }

  /** Hence a leaf signed by a CA read back from disk is the same certificate
      as one signed by the CA still in memory. */
  lemma LeafFromReadBackCA(forge: Forge, options: CertOptions, leafOptions: CertOptions, now: Date, later: Date,
                           leafLater: Date, entropy: nat, leafEntropy: nat)
    requires Valid(now) && Valid(later) && Valid(leafLater)
    requires PemReadersInvertWriters(forge)
    requires BuildCA(forge, options, now, later, entropy).Success?
    ensures var ca := BuildCA(forge, options, now, later, entropy).value;
      var loaded := ReadExistingCA(forge, ca.caPrivateKeyPem, ca.caCertPem);
      loaded.Success?
      && BuildClientCertificate(forge, loaded.value.caCert, loaded.value.caPrivateKey, leafOptions, now, leafLater, leafEntropy)
         == BuildClientCertificate(forge, ca.caCert, ca.caPrivateKey, leafOptions, now, leafLater, leafEntropy)
  {
    ReadBackBuiltCA(forge, options, now, later, entropy);
  }

  /** A leaf names its CA as issuer: its issuer is the CA's subject, which is
      also the CA's own issuer. */
  lemma LeafIssuerIsCaSubject(forge: Forge, options: CertOptions, leafOptions: CertOptions, now: Date, later: Date,
                              leafLater: Date, entropy: nat, leafEntropy: nat)
    requires Valid(now) && Valid(later) && Valid(leafLater)
    requires BuildCA(forge, options, now, later, entropy).Success?
    requires var ca := BuildCA(forge, options, now, later, entropy).value;
      BuildClientCertificate(forge, ca.caCert, ca.caPrivateKey, leafOptions, now, leafLater, leafEntropy).Success?
    ensures var ca := BuildCA(forge, options, now, later, entropy).value;
      var leaf := BuildClientCertificate(forge, ca.caCert, ca.caPrivateKey, leafOptions, now, leafLater, leafEntropy).value;
      leaf.cert.issuer == ca.caCert.subject == ca.caCert.issuer
      && leaf.cert.signedWith == ca.caCert.signedWith
  {
  }
}
