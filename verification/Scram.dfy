// src/auth/scram.rs: the two parties of SCRAM-SHA-256 (RFC 5802, RFC 7677) as they are here.

/** The messages and what each party computes, as functions of its fields. */
module ScramSpec {
  import opened Prelude
  import opened Text
  import opened Xor
  import Base64
  import Decimal

  type Digest = s: bytes | |s| == 32 witness seq(32, _ => 0)

  /** HMAC-SHA-256, SHA-256 and PBKDF2, of which only the size of the result is known. */
  datatype Crypto = Crypto(
    hmac: (bytes, bytes) -> Digest,
    sha256: bytes -> Digest,
    pbkdf2: (bytes, bytes, nat) -> Digest)

  const EQ: byte := 61
  const C: byte := 99
  const I: byte := 105
  const N: byte := 110
  const P: byte := 112
  const R: byte := 114
  const S: byte := 115
  const V: byte := 118
  const GS2: bytes := [110, 44, 44]                                            // "n,,"
  const CLIENT_KEY: bytes := [67, 108, 105, 101, 110, 116, 32, 75, 101, 121]   // "Client Key"
  const SERVER_KEY: bytes := [83, 101, 114, 118, 101, 114, 32, 75, 101, 121]   // "Server Key"

  /** `tag=value` */
  function Field(tag: byte, value: bytes): bytes {
    [tag, EQ] + value
  }

  predicate HasTag(part: bytes, tag: byte) {
    |part| >= 2 && part[0] == tag && part[1] == EQ
  }

  lemma FieldParts(tag: byte, value: bytes)
    requires tag != COMMA && Free(value, COMMA)
    ensures var f := Field(tag, value); HasTag(f, tag) && f[2..] == value && Free(f, COMMA)
  {
  }

  /** The value of the last part with this tag: later parts overwrite earlier ones. */
  function LastField(parts: seq<bytes>, tag: byte): Option<bytes> {
    if parts == [] then None
    else
      var last := parts[|parts| - 1];
      if HasTag(last, tag) then Some(last[2..]) else LastField(parts[..|parts| - 1], tag)
  }

  /** What one more part changes. */
  lemma LastFieldStep(parts: seq<bytes>, i: nat, tag: byte)
    requires i < |parts|
    ensures LastField(parts[..i + 1], tag) ==
      if HasTag(parts[i], tag) then Some(parts[i][2..]) else LastField(parts[..i], tag)
  {
    assert parts[..i + 1][..i] == parts[..i];
  }

  function OrEmpty(v: Option<bytes>): bytes {
    match v case None => [] case Some(b) => b
  }

  /** `unb64`: an undecodable text counts as no bytes. */
  function Unb64(s: bytes): bytes {
    OrEmpty(Base64.Decode(s))
  }

  function Joined(a: bytes, b: bytes, c: bytes): bytes {
    a + [COMMA] + (b + [COMMA] + c)
  }

  function WithoutProof(channelBinding: bytes, nonce: bytes): bytes {
    Field(C, channelBinding) + [COMMA] + Field(R, nonce)
  }

  // ---- Client ----

  datatype Client = Client(
    username: bytes,
    password: bytes,
    nonce: bytes,
    firstBare: bytes,
    serverFirst: Option<bytes>,
    salted: Option<Digest>,
    authMessage: Option<bytes>)

  datatype ServerFirst = ServerFirst(nonce: bytes, salt: bytes, iterations: nat)

  function NewClient(username: bytes, password: bytes, nonce: bytes): Client {
    Client(username, password, nonce, [], None, None, None)
  }

  function FirstBare(username: bytes, nonce: bytes): bytes {
    Field(N, username) + [COMMA] + Field(R, nonce)
  }

  function BuildClientFirst(c: Client): (Client, bytes) {
    var bare := FirstBare(c.username, c.nonce);
    (c.(firstBare := bare), GS2 + bare)
  }

  /** No part makes the client give up: nonces extend its own, counts are u32 numbers. */
  predicate PartsAcceptable(parts: seq<bytes>, nonce: bytes) {
    forall i :: 0 <= i < |parts| ==> PartAcceptable(parts[i], nonce)
  }

  predicate PartAcceptable(part: bytes, nonce: bytes) {
    && (HasTag(part, R) ==> nonce <= part[2..])
    && (HasTag(part, I) ==> Decimal.Parse(part[2..]).Some?)
  }

  lemma PartsAcceptableStep(parts: seq<bytes>, i: nat, nonce: bytes)
    requires i < |parts|
    ensures PartsAcceptable(parts[..i + 1], nonce) <==>
      PartsAcceptable(parts[..i], nonce) && PartAcceptable(parts[i], nonce)
    ensures !PartAcceptable(parts[i], nonce) ==> !PartsAcceptable(parts, nonce)
  {
    assert parts[..i + 1][i] == parts[i];
    assert forall k :: 0 <= k < i ==> parts[..i + 1][k] == parts[..i][k];
  }

  function Iterations(parts: seq<bytes>): nat {
    match LastField(parts, I)
    case None => 0
    case Some(v) => match Decimal.Parse(v) case None => 0 case Some(n) => n
  }

  function ParseServerFirst(crypto: Crypto, c: Client, msg: bytes): (Client, Option<ServerFirst>) {
    ReadParts(crypto, c, msg, Split(msg, COMMA))
  }

  function ReadParts(crypto: Crypto, c: Client, msg: bytes, parts: seq<bytes>): (Client, Option<ServerFirst>) {
    var nonce := OrEmpty(LastField(parts, R));
    var salt := Unb64(OrEmpty(LastField(parts, S)));
    var iterations := Iterations(parts);
    if !PartsAcceptable(parts, c.nonce) || nonce == [] || salt == [] || iterations == 0 then (c, None)
    else
      (c.(serverFirst := Some(msg), salted := Some(crypto.pbkdf2(c.password, salt, iterations))),
       Some(ServerFirst(nonce, salt, iterations)))
  }

  function ClientSignature(crypto: Crypto, clientKey: bytes, authMessage: bytes): Digest {
    crypto.hmac(crypto.sha256(clientKey), authMessage)
  }

  function BuildClientFinal(crypto: Crypto, c: Client): (Client, Option<bytes>) {
    if c.salted.None? || c.serverFirst.None? then (c, None)
    else
      var clientKey := crypto.hmac(c.salted.value, CLIENT_KEY);
      var bare := WithoutProof(Base64.Encode(GS2), c.nonce);
      var auth := Joined(c.firstBare, c.serverFirst.value, bare);
      var proof := XorBytes(clientKey, ClientSignature(crypto, clientKey, auth));
      (c.(authMessage := Some(auth)), Some(bare + [COMMA] + Field(P, Base64.Encode(proof))))
  }

  predicate VerifyServerFinal(crypto: Crypto, c: Client, msg: bytes) {
    && c.salted.Some? && c.authMessage.Some?
    && msg == Field(V, Base64.Encode(
         crypto.hmac(crypto.hmac(c.salted.value, SERVER_KEY), c.authMessage.value)))
  }

  // ---- Server ----

  datatype Server = Server(
    password: bytes,
    nonce: bytes,
    clientNonce: bytes,
    username: bytes,
    salt: bytes,
    iterations: nat,
    serverFirst: Option<bytes>,
    storedKey: Option<Digest>,
    serverKey: Option<Digest>,
    authMessage: Option<bytes>,
    firstBare: bytes)

  function NewServer(password: bytes, nonce: bytes, salt: bytes, iterations: nat): Server {
    Server(password, nonce, [], [], salt, iterations, None, None, None, None, [])
  }

  function FirstText(clientNonce: bytes, nonce: bytes, salt: bytes, iterations: nat): bytes {
    Joined(Field(R, clientNonce + nonce), Field(S, Base64.Encode(salt)), Field(I, Decimal.Print(iterations)))
  }

  /** The fields that a client-first message sets, whatever becomes of it. */
  function ReadClientFirst(s: Server, msg: bytes): Server {
    var bare := match StripPrefix(msg, GS2) case None => msg case Some(rest) => rest;
    var parts := Split(bare, COMMA);
    s.(firstBare := bare,
       username := match LastField(parts, N) case None => s.username case Some(v) => v,
       clientNonce := match LastField(parts, R) case None => s.clientNonce case Some(v) => v)
  }

  function BuildServerFirst(crypto: Crypto, s: Server, msg: bytes): (Server, Option<bytes>) {
    var s1 := ReadClientFirst(s, msg);
    if s1.clientNonce == [] then (s1, None)
    else (Prepared(crypto, s1), Some(FirstText(s1.clientNonce, s1.nonce, s1.salt, s1.iterations)))
  }

  /** The server with its message and the two keys that the password stands for. */
  function Prepared(crypto: Crypto, s: Server): Server {
    var salted := crypto.pbkdf2(s.password, s.salt, s.iterations);
    s.(serverFirst := Some(FirstText(s.clientNonce, s.nonce, s.salt, s.iterations)),
       storedKey := Some(crypto.sha256(crypto.hmac(salted, CLIENT_KEY))),
       serverKey := Some(crypto.hmac(salted, SERVER_KEY)))
  }

  /** The key that a proof text gives away, given what the server knows. */
  function RecoveredKey(crypto: Crypto, storedKey: Digest, authMessage: bytes, proof: bytes): bytes {
    XorBytes(Unb64(proof), crypto.hmac(storedKey, authMessage))
  }

  function HandleClientFinal(crypto: Crypto, s: Server, msg: bytes): (Server, Option<bytes>) {
    if s.serverFirst.None? || s.storedKey.None? || s.serverKey.None? then (s, None)
    else
      var parts := Split(msg, COMMA);
      var channelBinding := OrEmpty(LastField(parts, C));
      var nonce := OrEmpty(LastField(parts, R));
      var proof := OrEmpty(LastField(parts, P));
      if channelBinding == [] || nonce == [] || proof == [] then (s, None)
      else
        var auth := Joined(s.firstBare, s.serverFirst.value, WithoutProof(channelBinding, nonce));
        var s1 := s.(authMessage := Some(auth));
        if crypto.sha256(RecoveredKey(crypto, s.storedKey.value, auth, proof)) != s.storedKey.value then (s1, None)
        else (s1, Some(Field(V, Base64.Encode(crypto.hmac(s.serverKey.value, auth)))))
  }
}

/** What the two parties achieve together. */
module ScramTheorems {
  import opened Prelude
  import opened Text
  import opened Xor
  import opened ScramSpec
  import Base64
  import Decimal

  lemma SplitThree(a: bytes, b: bytes, c: bytes)
    requires Free(a, COMMA) && Free(b, COMMA) && Free(c, COMMA)
    ensures Split(Joined(a, b, c), COMMA) == [a, b, c]
  {
    SplitPiece(a, COMMA, b + [COMMA] + c);
    SplitPiece(b, COMMA, c);
    SplitWhole(c, COMMA);
  }

  lemma LastFieldOfThree(a: bytes, b: bytes, c: bytes, tag: byte)
    ensures LastField([a, b, c], tag) ==
      if HasTag(c, tag) then Some(c[2..])
      else if HasTag(b, tag) then Some(b[2..])
      else if HasTag(a, tag) then Some(a[2..])
      else None
  {
    var parts := [a, b, c];
    LastFieldStep(parts, 2, tag);
    LastFieldStep(parts, 1, tag);
    LastFieldStep(parts, 0, tag);
    assert parts[..3] == parts && LastField(parts[..0], tag) == None;
  }

  /** Whatever commas the user name holds, the nonce behind it is the last field of the message. */
  lemma NonceOfClientFirst(s: Server, username: bytes, nonce: bytes)
    requires Free(nonce, COMMA)
    ensures ReadClientFirst(s, GS2 + FirstBare(username, nonce)).clientNonce == nonce
    ensures ReadClientFirst(s, GS2 + FirstBare(username, nonce)).firstBare == FirstBare(username, nonce)
  {
    var bare := FirstBare(username, nonce);
    assert (GS2 + bare)[3..] == bare;
    var last := Field(R, nonce);
    SplitAppend(Field(N, username), COMMA, last);
    SplitWhole(last, COMMA);
    var parts := Split(bare, COMMA);
    assert parts[|parts| - 1] == last && last[2..] == nonce;
  }

  /** The client understands the server-first message as the server meant it. */
  lemma ServerFirstIsUnderstood(crypto: Crypto, c: Client, serverNonce: bytes, salt: bytes, iterations: nat)
    requires Free(c.nonce, COMMA) && Free(serverNonce, COMMA)
    requires c.nonce != [] && salt != [] && 0 < iterations < Decimal.U32_LIMIT
    ensures var text := FirstText(c.nonce, serverNonce, salt, iterations);
      ParseServerFirst(crypto, c, text) ==
        (c.(serverFirst := Some(text), salted := Some(crypto.pbkdf2(c.password, salt, iterations))),
         Some(ServerFirst(c.nonce + serverNonce, salt, iterations)))
  {
    var r, s, i := Field(R, c.nonce + serverNonce), Field(S, Base64.Encode(salt)), Field(I, Decimal.Print(iterations));
    FieldParts(R, c.nonce + serverNonce);
    FieldParts(S, Base64.Encode(salt));
    FieldParts(I, Decimal.Print(iterations));
    FieldsOfThree(r, s, i);
    Base64.DecodesExactly(Base64.Encode(salt), salt);
    Decimal.ParsePrintExactly(iterations);
    AcceptableThree(r, s, i, c.nonce);
    ReadThree(crypto, c, Joined(r, s, i), [r, s, i], salt, iterations);
  }

  lemma ReadThree(crypto: Crypto, c: Client, msg: bytes, parts: seq<bytes>, salt: bytes, iterations: nat)
    requires PartsAcceptable(parts, c.nonce) && c.nonce != [] && salt != [] && iterations > 0
    requires LastField(parts, R).Some? && c.nonce <= LastField(parts, R).value
    requires LastField(parts, S) == Some(Base64.Encode(salt)) && Unb64(Base64.Encode(salt)) == salt
    requires LastField(parts, I).Some? && Decimal.Parse(LastField(parts, I).value) == Some(iterations)
    ensures ReadParts(crypto, c, msg, parts) ==
      (c.(serverFirst := Some(msg), salted := Some(crypto.pbkdf2(c.password, salt, iterations))),
       Some(ServerFirst(LastField(parts, R).value, salt, iterations)))
  {
  }

  lemma AcceptableThree(r: bytes, s: bytes, i: bytes, nonce: bytes)
    requires HasTag(r, R) && HasTag(s, S) && HasTag(i, I)
    requires nonce <= r[2..] && Decimal.Parse(i[2..]).Some?
    ensures PartsAcceptable([r, s, i], nonce)
  {
  }

  lemma FieldsOfThree(r: bytes, s: bytes, i: bytes)
    requires HasTag(r, R) && HasTag(s, S) && HasTag(i, I)
    requires Free(r, COMMA) && Free(s, COMMA) && Free(i, COMMA)
    ensures var parts := Split(Joined(r, s, i), COMMA);
      && parts == [r, s, i]
      && LastField(parts, R) == Some(r[2..])
      && LastField(parts, S) == Some(s[2..])
      && LastField(parts, I) == Some(i[2..])
  {
    SplitThree(r, s, i);
    LastFieldOfThree(r, s, i, R);
    LastFieldOfThree(r, s, i, S);
    LastFieldOfThree(r, s, i, I);
  }

  /** The server takes a client-final message apart into the three fields it was made of. */
  lemma ClientFinalFields(channelBinding: bytes, nonce: bytes, proof: bytes)
    requires Free(channelBinding, COMMA) && Free(nonce, COMMA) && Free(proof, COMMA)
    ensures var parts := Split(WithoutProof(channelBinding, nonce) + [COMMA] + Field(P, proof), COMMA);
      && LastField(parts, C) == Some(channelBinding)
      && LastField(parts, R) == Some(nonce)
      && LastField(parts, P) == Some(proof)
  {
    var c, r, p := Field(C, channelBinding), Field(R, nonce), Field(P, proof);
    assert WithoutProof(channelBinding, nonce) + [COMMA] + p == Joined(c, r, p);
    SplitThree(c, r, p);
    LastFieldOfThree(c, r, p, C);
    LastFieldOfThree(c, r, p, R);
    LastFieldOfThree(c, r, p, P);
    assert c[2..] == channelBinding && r[2..] == nonce && p[2..] == proof;
  }

  /** A server that has prepared for the client's key accepts the client's proof. */
  lemma ProofIsAccepted(crypto: Crypto, c: Client, s: Server)
    requires c.salted.Some? && c.serverFirst.Some? && c.nonce != [] && Free(c.nonce, COMMA)
    requires s.serverFirst == c.serverFirst && s.firstBare == c.firstBare && s.serverKey.Some?
    requires s.storedKey == Some(crypto.sha256(crypto.hmac(c.salted.value, CLIENT_KEY)))
    ensures var (c1, final) := BuildClientFinal(crypto, c);
      && final.Some? && c1.authMessage.Some?
      && HandleClientFinal(crypto, s, final.value) ==
        (s.(authMessage := c1.authMessage),
         Some(Field(V, Base64.Encode(crypto.hmac(s.serverKey.value, c1.authMessage.value)))))
  {
    var (c1, final) := BuildClientFinal(crypto, c);
    var clientKey := crypto.hmac(c.salted.value, CLIENT_KEY);
    var auth := c1.authMessage.value;
    var signature := ClientSignature(crypto, clientKey, auth);
    var proof := XorBytes(clientKey, signature);
    ClientFinalFields(Base64.Encode(GS2), c.nonce, Base64.Encode(proof));
    Base64.DecodesExactly(Base64.Encode(proof), proof);
    XorBytesCancels(clientKey, signature);
    assert clientKey[..32] == clientKey;
  }

  // ---- The messages on the wire ----

  function FirstOnTheWire(username: bytes, nonce: bytes): bytes {
    Ascii("n,,n=") + username + Ascii(",r=") + nonce
  }

  function ServerFirstOnTheWire(nonces: bytes, salt: bytes, iterations: nat): bytes {
    Ascii("r=") + nonces + Ascii(",s=") + Base64.Encode(salt) + Ascii(",i=") + Decimal.Print(iterations)
  }

  /** The client's key, and the signature that its proof hides it with. */
  function KeyOf(crypto: Crypto, salted: Digest): Digest {
    crypto.hmac(salted, Ascii("Client Key"))
  }

  function SignatureOf(crypto: Crypto, salted: Digest, auth: bytes): Digest {
    crypto.hmac(crypto.sha256(KeyOf(crypto, salted)), auth)
  }

  /** `c=biws,r=nonce`, all of the client-final message but for the proof. */
  function FinalBare(nonce: bytes): bytes {
    Ascii("c=biws,r=") + nonce
  }

  function FinalOnTheWire(crypto: Crypto, salted: Digest, nonce: bytes, auth: bytes): bytes {
    FinalBare(nonce) + Ascii(",p=") + Base64.Encode(XorBytes(KeyOf(crypto, salted), SignatureOf(crypto, salted, auth)))
  }

  function ServerFinalOnTheWire(crypto: Crypto, salted: Digest, auth: bytes): bytes {
    Ascii("v=") + Base64.Encode(crypto.hmac(crypto.hmac(salted, Ascii("Server Key")), auth))
  }

  lemma HeaderInBase64()
    ensures Base64.Encode(GS2) == Ascii("biws")
    ensures GS2 == Ascii("n,,") && CLIENT_KEY == Ascii("Client Key") && SERVER_KEY == Ascii("Server Key")
  {
    var v := Base64.Sextets(GS2);
    assert Base64.Sextets(GS2[3..]) == [];
    assert v == Base64.SextetBlock(110, 44, 44) + [];
    assert v == [27, 34, 48, 44];
  }

  /** `n,,n=user,r=nonce`, of which the client keeps what follows the header. */
  lemma ClientFirstIs(c: Client)
    ensures var (c1, first) := BuildClientFirst(c);
      && first == FirstOnTheWire(c.username, c.nonce) && |first| >= 3
      && c1 == c.(firstBare := first[3..])
  {
    var bare := FirstBare(c.username, c.nonce);
    assert bare == Ascii("n=") + c.username + Ascii(",r=") + c.nonce;
    assert (GS2 + bare)[3..] == bare;
    assert Ascii("n,,n=") == GS2 + Ascii("n=");
    assert GS2 + (Ascii("n=") + c.username + Ascii(",r=") + c.nonce)
      == Ascii("n,,n=") + c.username + Ascii(",r=") + c.nonce;
  }

  lemma Regrouped(a: bytes, b: bytes, sep: bytes, c: bytes, sep2: bytes, d: bytes)
    ensures (a + b) + (sep + (c + (sep2 + d))) == a + b + sep + c + sep2 + d
  {
  }

  lemma ThreeFieldsAre(r: bytes, s: bytes, i: bytes)
    ensures Joined(Field(R, r), Field(S, s), Field(I, i)) ==
      Ascii("r=") + r + Ascii(",s=") + s + Ascii(",i=") + i
  {
    assert Field(R, r) == Ascii("r=") + r;
    assert [COMMA] + Field(S, s) == Ascii(",s=") + s;
    assert [COMMA] + Field(I, i) == Ascii(",i=") + i;
    var rest := Field(S, s) + [COMMA] + Field(I, i);
    assert Field(R, r) + [COMMA] + rest == Field(R, r) + ([COMMA] + rest);
    assert [COMMA] + rest == ([COMMA] + Field(S, s)) + ([COMMA] + Field(I, i));
    hide Field, Ascii;
    assert (Ascii(",s=") + s) + (Ascii(",i=") + i) == Ascii(",s=") + (s + (Ascii(",i=") + i));
    Regrouped(Ascii("r="), r, Ascii(",s="), s, Ascii(",i="), i);
  }

  /** `r=nonces,s=salt,i=count` */
  lemma ServerFirstIs(clientNonce: bytes, nonce: bytes, salt: bytes, iterations: nat)
    ensures FirstText(clientNonce, nonce, salt, iterations)
      == ServerFirstOnTheWire(clientNonce + nonce, salt, iterations)
  {
    ThreeFieldsAre(clientNonce + nonce, Base64.Encode(salt), Decimal.Print(iterations));
  }

  lemma FinalBareIs(nonce: bytes)
    ensures WithoutProof(Base64.Encode(GS2), nonce) == FinalBare(nonce)
    ensures FinalBare(nonce) == Ascii("c=biws") + [COMMA] + (Ascii("r=") + nonce)
  {
    HeaderInBase64();
    assert Field(C, Ascii("biws")) == Ascii("c=biws");
    assert Ascii("c=biws,r=") == Ascii("c=biws") + [COMMA] + Ascii("r=");
  }

  /**
   * `c=biws,r=nonce,p=proof`.  What is signed is what the client has sent first, what it has
   * read, and what it sends now, without the header and the proof, with commas between them.
   */
  lemma ClientFinalIs(crypto: Crypto, c: Client)
    requires c.salted.Some? && c.serverFirst.Some?
    ensures var (c1, final) := BuildClientFinal(crypto, c);
      var auth := c.firstBare + Ascii(",") + c.serverFirst.value + Ascii(",") + FinalBare(c.nonce);
      c1 == c.(authMessage := Some(auth)) && final == Some(FinalOnTheWire(crypto, c.salted.value, c.nonce, auth))
  {
    HeaderInBase64();
    FinalBareIs(c.nonce);
    var bare := FinalBare(c.nonce);
    assert Joined(c.firstBare, c.serverFirst.value, bare)
      == c.firstBare + Ascii(",") + c.serverFirst.value + Ascii(",") + bare;
    var proof := Base64.Encode(XorBytes(KeyOf(crypto, c.salted.value),
      SignatureOf(crypto, c.salted.value, Joined(c.firstBare, c.serverFirst.value, bare))));
    assert [COMMA] + Field(P, proof) == Ascii(",p=") + proof;
    assert bare + [COMMA] + Field(P, proof) == bare + Ascii(",p=") + proof;
  }

  /** Its three fields, when the nonce has no comma in it. */
  lemma ClientFinalSplits(crypto: Crypto, c: Client)
    requires c.salted.Some? && c.serverFirst.Some? && Free(c.nonce, COMMA)
    ensures var final := BuildClientFinal(crypto, c).1.value;
      var parts := Split(final, COMMA);
      && |parts| == 3 && parts[0] == Ascii("c=biws") && parts[1] == Ascii("r=") + c.nonce
      && HasTag(parts[2], P) && final == FinalBare(c.nonce) + [COMMA] + parts[2]
  {
    ClientFinalIs(crypto, c);
    FinalBareIs(c.nonce);
    var auth := c.firstBare + Ascii(",") + c.serverFirst.value + Ascii(",") + FinalBare(c.nonce);
    var proof := Base64.Encode(XorBytes(KeyOf(crypto, c.salted.value), SignatureOf(crypto, c.salted.value, auth)));
    FinalSplits(c.nonce, proof);
  }

  lemma FinalSplits(nonce: bytes, proof: bytes)
    requires Free(nonce, COMMA) && Free(proof, COMMA)
    ensures var final := FinalBare(nonce) + Ascii(",p=") + proof;
      Split(final, COMMA) == [Ascii("c=biws"), Ascii("r=") + nonce, Field(P, proof)]
      && final == FinalBare(nonce) + [COMMA] + Field(P, proof) && HasTag(Field(P, proof), P)
  {
    hide Split, FinalBare;
    FinalBareIs(nonce);
    var c, r, p := Ascii("c=biws"), Ascii("r=") + nonce, Field(P, proof);
    assert Ascii(",p=") + proof == [COMMA] + p;
    assert FinalBare(nonce) + Ascii(",p=") + proof == FinalBare(nonce) + ([COMMA] + p);
    assert (c + [COMMA] + r) + ([COMMA] + p) == Joined(c, r, p);
    FieldParts(P, proof);
    FieldParts(R, nonce);
    assert r == Field(R, nonce);
    SplitThree(c, r, p);
  }

  /** The client accepts `v=signature` and nothing else, and nothing at all before it has signed. */
  lemma OnlyTheSignatureIsAccepted(crypto: Crypto, c: Client, msg: bytes)
    ensures VerifyServerFinal(crypto, c, msg) <==>
      && c.salted.Some? && c.authMessage.Some?
      && msg == ServerFinalOnTheWire(crypto, c.salted.value, c.authMessage.value)
  {
    HeaderInBase64();
    assert forall t: bytes :: Field(V, t) == Ascii("v=") + t;
  }

  /** Neither party does a step before the one it depends on. */
  lemma NothingOutOfOrder(crypto: Crypto, username: bytes, password: bytes, nonce: bytes, salt: bytes, iterations: nat,
      msg: bytes)
    ensures var c, s := NewClient(username, password, nonce), NewServer(password, nonce, salt, iterations);
      && BuildClientFinal(crypto, c) == (c, None) && !VerifyServerFinal(crypto, c, msg)
      && !VerifyServerFinal(crypto, BuildClientFirst(c).0, msg)
      && !VerifyServerFinal(crypto, ParseServerFirst(crypto, BuildClientFirst(c).0, msg).0, msg)
      && HandleClientFinal(crypto, s, msg) == (s, None)
  {
    hide ParseServerFirst, Split;
    var c := NewClient(username, password, nonce);
    ParsingSignsNothing(crypto, BuildClientFirst(c).0, msg);
  }

  lemma ParsingSignsNothing(crypto: Crypto, c: Client, msg: bytes)
    ensures ParseServerFirst(crypto, c, msg).0.authMessage == c.authMessage
  {
  }

  /**
   * The server takes the user name from the first message as it is sent if it has no comma in
   * it, and cut at one if it has.
   */
  lemma UserNameComesExactly(s: Server, username: bytes, nonce: bytes)
    requires Free(nonce, COMMA)
    ensures ReadClientFirst(s, GS2 + FirstBare(username, nonce)).username == username <==> Free(username, COMMA)
    ensures Free(ReadClientFirst(s, GS2 + FirstBare(username, nonce)).username, COMMA)
  {
    var bare, last, name := FirstBare(username, nonce), Field(R, nonce), Field(N, username);
    assert (GS2 + bare)[3..] == bare;
    SplitAppend(name, COMMA, last);
    SplitWhole(last, COMMA);
    var parts := Split(bare, COMMA);
    var names := Split(name, COMMA);
    assert parts == names + [last];
    assert parts[..|parts| - 1] == names && !HasTag(last, N);
    FirstPieceStarts(username);
    SomeNameIsLast(names);
    if Free(username, COMMA) {
      FieldParts(N, username);
      SplitWhole(name, COMMA);
      assert names == [name] && names[..0] == [];
    }
  }

  lemma FirstPieceStarts(username: bytes)
    ensures HasTag(Split(Field(N, username), COMMA)[0], N)
  {
    var name := Field(N, username);
    var p := IndexFrom(name, COMMA, 0);
    assert name[0] == N && name[1] == EQ && p >= 2;
    assert Split(name, COMMA)[0] == name[..p];
  }

  lemma {:induction false} SomeNameIsLast(parts: seq<bytes>)
    requires parts != [] && HasTag(parts[0], N) && forall i :: 0 <= i < |parts| ==> Free(parts[i], COMMA)
    ensures LastField(parts, N).Some? && Free(LastField(parts, N).value, COMMA)
    decreases |parts|
  {
    if !HasTag(parts[|parts| - 1], N) {
      SomeNameIsLast(parts[..|parts| - 1]);
    }
  }

  /** The header may be left out, and without a nonce there is no answer. */
  lemma FirstMessageForms(crypto: Crypto, s: Server, bare: bytes, username: bytes)
    ensures !(GS2 <= bare) ==> BuildServerFirst(crypto, s, bare) == BuildServerFirst(crypto, s, GS2 + bare)
    ensures BuildServerFirst(crypto, s, GS2 + FirstBare(username, [])).1.None?
  {
    hide Split, Prepared, LastField;
    assert (GS2 + bare)[3..] == bare;
    NonceOfClientFirst(s, username, []);
  }

  /**
   * Of a message with the three fields the client takes exactly those whose nonce begins with its
   * own and is not empty, whose salt is the encoding of some bytes, and whose count is a positive
   * u32; of any other it keeps nothing.
   */
  lemma ServerFirstIsTakenExactly(crypto: Crypto, c: Client, nonce: bytes, salt: bytes, count: bytes)
    requires Free(nonce, COMMA) && Free(salt, COMMA) && Free(count, COMMA)
    ensures var msg := Ascii("r=") + nonce + Ascii(",s=") + salt + Ascii(",i=") + count;
      var (c1, taken) := ParseServerFirst(crypto, c, msg);
      && (taken.Some? <==>
            && c.nonce <= nonce && nonce != [] && Base64.Decode(salt).Some? && Base64.Decode(salt).value != []
            && Decimal.Parse(count).Some? && Decimal.Parse(count).value > 0)
      && (taken.Some? ==>
            var salted := crypto.pbkdf2(c.password, Base64.Decode(salt).value, Decimal.Parse(count).value);
            && taken.value == ServerFirst(nonce, Base64.Decode(salt).value, Decimal.Parse(count).value)
            && c1 == c.(serverFirst := Some(msg), salted := Some(salted)))
      && (taken.None? ==> c1 == c)
  {
    hide Base64.Decode, Decimal.Parse, Split, LastField;
    var r, s, i := Field(R, nonce), Field(S, salt), Field(I, count);
    var msg := Ascii("r=") + nonce + Ascii(",s=") + salt + Ascii(",i=") + count;
    ThreeFieldsAre(nonce, salt, count);
    assert msg == Joined(r, s, i);
    FieldParts(R, nonce);
    FieldParts(S, salt);
    FieldParts(I, count);
    FieldsOfThree(r, s, i);
    AcceptableOfThree(r, s, i, c.nonce);
  }

  lemma AcceptableOfThree(r: bytes, s: bytes, i: bytes, nonce: bytes)
    requires HasTag(r, R) && HasTag(s, S) && HasTag(i, I)
    ensures PartsAcceptable([r, s, i], nonce) <==> nonce <= r[2..] && Decimal.Parse(i[2..]).Some?
  {
    hide Decimal.Parse;
    var parts := [r, s, i];
    assert PartsAcceptable(parts, nonce) ==> PartAcceptable(parts[0], nonce) && PartAcceptable(parts[2], nonce);
  }

  // ---- The exchange ----

  /**
   * Completeness.  With the same password on both sides, comma-free nonces, a non-empty client
   * nonce and salt and a positive u32 iteration count, every step succeeds, for every user
   * name: the messages are those of RFC 5802, both sides hold the same auth message, the server
   * reads the header that the client sent first and the client's nonce, and the client accepts
   * its answer and no other.
   */
  lemma ExchangeSucceeds(crypto: Crypto, username: bytes, password: bytes, clientNonce: bytes,
      serverNonce: bytes, salt: bytes, iterations: nat)
      returns (c: seq<Client>, s: seq<Server>, first: bytes, serverFirst: bytes, final: bytes, serverFinal: bytes)
    requires clientNonce != [] && Free(clientNonce, COMMA) && Free(serverNonce, COMMA)
    requires salt != [] && 0 < iterations < Decimal.U32_LIMIT
    ensures |c| == 4 && c[0] == NewClient(username, password, clientNonce)
    ensures |s| == 3 && s[0] == NewServer(password, serverNonce, salt, iterations)
    ensures BuildClientFirst(c[0]) == (c[1], first)
    ensures BuildServerFirst(crypto, s[0], first) == (s[1], Some(serverFirst))
    ensures ParseServerFirst(crypto, c[1], serverFirst)
      == (c[2], Some(ServerFirst(clientNonce + serverNonce, salt, iterations)))
    ensures BuildClientFinal(crypto, c[2]) == (c[3], Some(final))
    ensures HandleClientFinal(crypto, s[1], final) == (s[2], Some(serverFinal))
    ensures forall msg :: VerifyServerFinal(crypto, c[3], msg) <==> msg == serverFinal
    ensures first == FirstOnTheWire(username, clientNonce) && |first| >= 3
    ensures serverFirst == ServerFirstOnTheWire(clientNonce + serverNonce, salt, iterations)
    ensures c[3].authMessage == Some(first[3..] + Ascii(",") + serverFirst + Ascii(",") + FinalBare(clientNonce))
    ensures s[2].authMessage == c[3].authMessage
    ensures final
      == FinalOnTheWire(crypto, crypto.pbkdf2(password, salt, iterations), clientNonce, c[3].authMessage.value)
    ensures serverFinal
      == ServerFinalOnTheWire(crypto, crypto.pbkdf2(password, salt, iterations), c[3].authMessage.value)
    ensures LastField(Split(final, COMMA), C) == Some(Base64.Encode(first[..3]))
    ensures LastField(Split(final, COMMA), R) == Some(clientNonce)
  {
    hide Split, LastField, XorBytes;
    var c0, s0 := NewClient(username, password, clientNonce), NewServer(password, serverNonce, salt, iterations);
    ClientFirstIs(c0);
    var c1 := BuildClientFirst(c0).0;
    first := BuildClientFirst(c0).1;
    NonceOfClientFirst(s0, username, clientNonce);
    var s1 := BuildServerFirst(crypto, s0, first).0;
    serverFirst := FirstText(clientNonce, serverNonce, salt, iterations);
    ServerFirstIs(clientNonce, serverNonce, salt, iterations);
    assert s1.firstBare == c1.firstBare;
    ServerFirstIsUnderstood(crypto, c1, serverNonce, salt, iterations);
    hide ParseServerFirst, BuildServerFirst, FirstText, BuildClientFirst;
    var c2 := ParseServerFirst(crypto, c1, serverFirst).0;
    ClientFinalIs(crypto, c2);
    ProofIsAccepted(crypto, c2, s1);
    FieldsOfFinal(crypto, c2, first);
    hide BuildClientFinal, HandleClientFinal;
    var c3 := BuildClientFinal(crypto, c2).0;
    final := BuildClientFinal(crypto, c2).1.value;
    var s2 := HandleClientFinal(crypto, s1, final).0;
    serverFinal := HandleClientFinal(crypto, s1, final).1.value;
    HeaderInBase64();
    assert forall t: bytes :: Field(V, t) == Ascii("v=") + t;
    forall msg
      ensures VerifyServerFinal(crypto, c3, msg) <==> msg == serverFinal
    {
      OnlyTheSignatureIsAccepted(crypto, c3, msg);
    }
    c, s := [c0, c1, c2, c3], [s0, s1, s2];
  }

  lemma FieldsOfFinal(crypto: Crypto, c: Client, first: bytes)
    requires c.salted.Some? && c.serverFirst.Some? && Free(c.nonce, COMMA) && GS2 <= first
    ensures var parts := Split(BuildClientFinal(crypto, c).1.value, COMMA);
      LastField(parts, C) == Some(Base64.Encode(first[..3])) && LastField(parts, R) == Some(c.nonce)
  {
    ClientFinalSplits(crypto, c);
    HeaderInBase64();
    assert first[..3] == GS2;
    var parts := Split(BuildClientFinal(crypto, c).1.value, COMMA);
    LastFieldOfThree(parts[0], parts[1], parts[2], C);
    LastFieldOfThree(parts[0], parts[1], parts[2], R);
    assert parts == [parts[0], parts[1], parts[2]];
    assert parts[0][2..] == Ascii("biws") && parts[1][2..] == c.nonce;
  }

  /** The proof that belongs to a client key: its xor with the signature, and 32 bytes of it. */
  ghost predicate RightProof(crypto: Crypto, clientKey: Digest, authMessage: bytes, proof: bytes) {
    |Unb64(proof)| >= 32
    && Unb64(proof)[..32] == XorBytes(clientKey, ClientSignature(crypto, clientKey, authMessage))
  }

  lemma RecoversExactly(a: bytes, key: Digest, signature: Digest)
    ensures XorBytes(a, signature) == key <==> |a| >= 32 && a[..32] == XorBytes(key, signature)
  {
    XorBytesCancels(a, signature);
    XorBytesCancels(key, signature);
    assert key[..32] == key;
    if |a| >= 32 {
      assert XorBytes(a, signature) == XorBytes(a[..32], signature);
    }
  }

  /**
   * Acceptance.  Once the message has its three fields, the server accepts if and only if the
   * first 32 decoded bytes are the right proof for the key behind its stored key, or the
   * recovered bytes and that key are a SHA-256 collision.  A proof cut short by the
   * truncating xor can only be the second.
   */
  lemma AcceptsExactly(crypto: Crypto, s: Server, msg: bytes, clientKey: Digest)
    requires s.serverFirst.Some? && s.serverKey.Some?
    requires s.storedKey == Some(crypto.sha256(clientKey))
    ensures
      var parts := Split(msg, COMMA);
      var channelBinding, nonce := OrEmpty(LastField(parts, C)), OrEmpty(LastField(parts, R));
      var proof := OrEmpty(LastField(parts, P));
      var auth := Joined(s.firstBare, s.serverFirst.value, WithoutProof(channelBinding, nonce));
      var recovered := RecoveredKey(crypto, s.storedKey.value, auth, proof);
      HandleClientFinal(crypto, s, msg).1.Some? <==>
        && channelBinding != [] && nonce != [] && proof != []
        && (|| RightProof(crypto, clientKey, auth, proof)
            || (recovered != clientKey && crypto.sha256(recovered) == crypto.sha256(clientKey)))
    ensures
      var parts := Split(msg, COMMA);
      var channelBinding, nonce := OrEmpty(LastField(parts, C)), OrEmpty(LastField(parts, R));
      var auth := Joined(s.firstBare, s.serverFirst.value, WithoutProof(channelBinding, nonce));
      var (s1, answer) := HandleClientFinal(crypto, s, msg);
      && s1 == (if channelBinding != [] && nonce != [] && OrEmpty(LastField(parts, P)) != []
                then s.(authMessage := Some(auth)) else s)
      && (answer.Some? ==> answer.value == Ascii("v=") + Base64.Encode(crypto.hmac(s.serverKey.value, auth)))
  {
    assert forall t: bytes :: Field(V, t) == Ascii("v=") + t;
    var parts := Split(msg, COMMA);
    var channelBinding, nonce := OrEmpty(LastField(parts, C)), OrEmpty(LastField(parts, R));
    var proof := OrEmpty(LastField(parts, P));
    var auth := Joined(s.firstBare, s.serverFirst.value, WithoutProof(channelBinding, nonce));
    RecoversExactly(Unb64(proof), clientKey, ClientSignature(crypto, clientKey, auth));
  }
}

/** The two objects, whose methods fill in their fields step by step. */
module ScramObjects {
  import opened Prelude
  import opened Text
  import opened Xor
  import opened ScramSpec
  import Base64
  import Decimal

  class ScramClient {
    const crypto: Crypto
    var username: bytes
    var password: bytes
    var clientNonce: bytes
    var clientFirstBare: bytes
    var serverFirst: Option<bytes>
    var saltedPassword: Option<Digest>
    var authMessage: Option<bytes>

    function State(): Client
      reads this
    {
      Client(username, password, clientNonce, clientFirstBare, serverFirst, saltedPassword, authMessage)
    }

    constructor (crypto: Crypto, username: bytes, password: bytes, nonce: bytes)
      ensures this.crypto == crypto && State() == NewClient(username, password, nonce)
    {
      this.crypto := crypto;
      this.username, this.password, clientNonce := username, password, nonce;
      clientFirstBare, serverFirst, saltedPassword, authMessage := [], None, None, None;
    }

    method ClientFirst() returns (msg: bytes)
      modifies this
      ensures (State(), msg) == BuildClientFirst(old(State()))
    {
      var bare := Field(N, username) + [COMMA] + Field(R, clientNonce);
      clientFirstBare := bare;
      msg := GS2 + bare;
    }

    method ReadServerFirst(msg: bytes) returns (r: Option<ServerFirst>)
      modifies this
      ensures (State(), r) == ParseServerFirst(crypto, old(State()), msg)
    {
      var ok, fullNonce, salt, iterations := ReadFields(Split(msg, COMMA));
      if !ok || fullNonce == [] || salt == [] || iterations == 0 {
        return None;
      }
      serverFirst := Some(msg);
      saltedPassword := Some(crypto.pbkdf2(password, salt, iterations));
      r := Some(ServerFirst(fullNonce, salt, iterations));
    }

    /** The loop over the parts of a server-first message; `ok` is false where it bails out. */
    method ReadFields(parts: seq<bytes>) returns (ok: bool, fullNonce: bytes, salt: bytes, iterations: nat)
      ensures ok == PartsAcceptable(parts, clientNonce)
      ensures ok ==> fullNonce == OrEmpty(LastField(parts, R))
      ensures ok ==> salt == Unb64(OrEmpty(LastField(parts, S)))
      ensures ok ==> iterations == Iterations(parts)
    {
      fullNonce, salt, iterations := [], [], 0;
      for i := 0 to |parts|
        invariant PartsAcceptable(parts[..i], clientNonce)
        invariant fullNonce == OrEmpty(LastField(parts[..i], R))
        invariant salt == Unb64(OrEmpty(LastField(parts[..i], S)))
        invariant iterations == Iterations(parts[..i])
      {
        var part := parts[i];
        LastFieldStep(parts, i, R);
        LastFieldStep(parts, i, S);
        LastFieldStep(parts, i, I);
        PartsAcceptableStep(parts, i, clientNonce);
        if HasTag(part, R) {
          fullNonce := part[2..];
          if !(clientNonce <= fullNonce) {
            return false, fullNonce, salt, iterations;
          }
        } else if HasTag(part, S) {
          salt := Unb64(part[2..]);
        } else if HasTag(part, I) {
          var parsed := Decimal.Parse(part[2..]);
          if parsed.None? {
            return false, fullNonce, salt, iterations;
          }
          iterations := parsed.value;
        }
      }
      assert parts[..|parts|] == parts;
      ok := true;
    }

    method ClientFinal() returns (msg: Option<bytes>)
      modifies this
      ensures (State(), msg) == BuildClientFinal(crypto, old(State()))
    {
      if saltedPassword.None? || serverFirst.None? {
        return None;
      }
      var clientKey := crypto.hmac(saltedPassword.value, CLIENT_KEY);
      var storedKey := crypto.sha256(clientKey);
      var bare := WithoutProof(Base64.Encode(GS2), clientNonce);
      authMessage := Some(clientFirstBare + [COMMA] + (serverFirst.value + [COMMA] + bare));
      var signature := crypto.hmac(storedKey, authMessage.value);
      var proof := XorBytes(clientKey, signature);
      msg := Some(bare + [COMMA] + Field(P, Base64.Encode(proof)));
    }

    method CheckServerFinal(msg: bytes) returns (ok: bool)
      ensures ok == VerifyServerFinal(crypto, State(), msg)
    {
      if saltedPassword.None? || authMessage.None? {
        return false;
      }
      var serverKey := crypto.hmac(saltedPassword.value, SERVER_KEY);
      var expected := Base64.Encode(crypto.hmac(serverKey, authMessage.value));
      var val := StripPrefix(msg, [V, EQ]);
      ok := val == Some(expected);
      assert val.Some? ==> msg == [V, EQ] + val.value;
    }
  }

  class ScramServer {
    const crypto: Crypto
    var password: bytes
    var serverNonce: bytes
    var clientNonce: bytes
    var username: bytes
    var salt: bytes
    var iterations: nat
    var serverFirst: Option<bytes>
    var storedKey: Option<Digest>
    var serverKey: Option<Digest>
    var authMessage: Option<bytes>
    var clientFirstBare: bytes

    function State(): Server
      reads this
    {
      Server(password, serverNonce, clientNonce, username, salt, iterations,
        serverFirst, storedKey, serverKey, authMessage, clientFirstBare)
    }

    /** The random nonce and salt are inputs; the iteration count is fixed. */
    constructor (crypto: Crypto, password: bytes, nonce: bytes, salt: bytes)
      ensures this.crypto == crypto && State() == NewServer(password, nonce, salt, 4096)
    {
      this.crypto := crypto;
      this.password, serverNonce, clientNonce, username := password, nonce, [], [];
      this.salt, iterations := salt, 4096;
      serverFirst, storedKey, serverKey, authMessage := None, None, None, None;
      clientFirstBare := [];
    }

    method FirstMessage(clientFirst: bytes) returns (msg: Option<bytes>)
      modifies this
      ensures (State(), msg) == BuildServerFirst(crypto, old(State()), clientFirst)
    {
      var stripped := StripPrefix(clientFirst, GS2);
      clientFirstBare := match stripped case None => clientFirst case Some(s) => s;
      ReadFields(Split(clientFirstBare, COMMA));
      assert State() == ReadClientFirst(old(State()), clientFirst);
      if clientNonce == [] {
        return None;
      }
      var sf := Prepare();
      msg := Some(sf);
    }

    /** From the full nonce on: the message, and the two keys computed ahead. */
    method Prepare() returns (sf: bytes)
      modifies this`serverFirst, this`storedKey, this`serverKey
      ensures sf == FirstText(clientNonce, serverNonce, salt, iterations)
      ensures State() == Prepared(crypto, old(State()))
    {
      var fullNonce := clientNonce + serverNonce;
      sf := Joined(Field(R, fullNonce), Field(S, Base64.Encode(salt)), Field(I, Decimal.Print(iterations)));
      serverFirst := Some(sf);
      var salted := crypto.pbkdf2(password, salt, iterations);
      var clientKey := crypto.hmac(salted, CLIENT_KEY);
      storedKey := Some(crypto.sha256(clientKey));
      serverKey := Some(crypto.hmac(salted, SERVER_KEY));
    }

    /** The loop over the parts of a client-first message. */
    method ReadFields(parts: seq<bytes>)
      modifies this`username, this`clientNonce
      ensures username == match LastField(parts, N) case None => old(username) case Some(v) => v
      ensures clientNonce == match LastField(parts, R) case None => old(clientNonce) case Some(v) => v
    {
      for i := 0 to |parts|
        invariant username == match LastField(parts[..i], N) case None => old(username) case Some(v) => v
        invariant clientNonce == match LastField(parts[..i], R) case None => old(clientNonce) case Some(v) => v
      {
        var part := parts[i];
        LastFieldStep(parts, i, N);
        LastFieldStep(parts, i, R);
        if HasTag(part, N) {
          username := part[2..];
        } else if HasTag(part, R) {
          clientNonce := part[2..];
        }
      }
      assert parts[..|parts|] == parts;
    }

    method ClientFinal(msg: bytes) returns (r: Option<bytes>)
      modifies this
      ensures (State(), r) == HandleClientFinal(crypto, old(State()), msg)
    {
      if serverFirst.None? || storedKey.None? || serverKey.None? {
        return None;
      }
      var parts := Split(msg, COMMA);
      var channelBinding, nonce, proof := [], [], [];
      for i := 0 to |parts|
        invariant unchanged(this)
        invariant channelBinding == OrEmpty(LastField(parts[..i], C))
        invariant nonce == OrEmpty(LastField(parts[..i], R))
        invariant proof == OrEmpty(LastField(parts[..i], P))
      {
        var part := parts[i];
        LastFieldStep(parts, i, C);
        LastFieldStep(parts, i, R);
        LastFieldStep(parts, i, P);
        if HasTag(part, C) { channelBinding := part[2..]; }
        else if HasTag(part, R) { nonce := part[2..]; }
        else if HasTag(part, P) { proof := part[2..]; }
      }
      assert parts[..|parts|] == parts;
      if channelBinding == [] || nonce == [] || proof == [] {
        return None;
      }
      var auth := Joined(clientFirstBare, serverFirst.value, WithoutProof(channelBinding, nonce));
      authMessage := Some(auth);
      var signature := crypto.hmac(storedKey.value, auth);
      var recovered := XorBytes(Unb64(proof), signature);
      if crypto.sha256(recovered) != storedKey.value {
        return None;
      }
      r := Some(Field(V, Base64.Encode(crypto.hmac(serverKey.value, auth))));
    }
  }
}
