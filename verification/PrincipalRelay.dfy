// Short-lived capabilities that carry a verified principal from one process, or
// one handler, to the next (src/folio_lattice/public_mcp.py). The message
// authentication code, JSON and the sorting of scopes are functions; a clock
// reading is an argument.
module PrincipalRelay {
  import opened Common
  import opened Base64Url

  const CAPABILITY_PROTOCOL := "folio-renderer-capability/v1"
  const IDENTITY_RELAY_TOOL := "__identity__"
  const ARTIFACT_READ := "artifact_read"
  const MAX_TOKEN := 4096
  const MAX_OPAQUE_TOKEN := 256

  datatype Principal = Principal(tenant: string, actor: string, issuer: string, subject: string, scopes: set<string>)

  datatype Binding = Binding(tool: string, digest: string)

  datatype Capability = Capability(principal: Principal, binding: Binding)

  datatype Payload = Payload(
    protocol: string, v: int, aud: string, iat: int, exp: int, jti: string,
    tenant: string, actor: string, issuer: string, subject: string, scopes: seq<string>,
    tool: string, digest: string)

  // `loads` is None for what is not JSON, not an object, or has a field of the
  // wrong type. `identityDigest` is IDENTITY_RELAY_DIGEST.
  datatype Library = Library(
    sign: Bytes -> Bytes,
    dumps: Payload -> Bytes,
    loads: Bytes -> Option<Payload>,
    sorted: set<string> -> seq<string>,
    identityDigest: string)

  // What the libraries promise.
  ghost predicate Faithful(lib: Library) {
    && (forall p :: lib.dumps(p) != [] && lib.loads(lib.dumps(p)) == Some(p))
    && (forall x :: lib.sign(x) != [])
    && (forall s :: Elements(lib.sorted(s)) == s)
  }

  /** `token.encode("ascii", "ignore")`. */
  function AsciiBytes(s: string): Bytes {
    if s == "" then []
    else (if s[0] < 128 as char then [s[0] as int] else []) + AsciiBytes(s[1..])
  }

  function TokenDigest(token: string): Digest {
    Sha256(AsciiBytes(token))
  }

  // --------------------------------------------------------- timed entries

  datatype Timed<+V> = Timed(expires: real, value: V)

  function Unexpired<V>(entries: map<Digest, Timed<V>>, now: real): map<Digest, Timed<V>> {
    map d | d in entries && entries[d].expires > now :: entries[d]
  }

  /** The two purge loops, which pop every entry that has expired. */
  method Purge<V>(entries: map<Digest, Timed<V>>, now: real) returns (live: map<Digest, Timed<V>>)
    ensures live == Unexpired(entries, now)
  {
    live := entries;
    var rest := entries.Keys;
    while rest != {}
      invariant rest <= entries.Keys
      invariant forall d :: d in live <==> d in entries && (d in rest || entries[d].expires > now)
      invariant forall d :: d in live ==> live[d] == entries[d]
      decreases |rest|
    {
      var d :| d in rest;
      rest := rest - {d};
      if entries[d].expires <= now {
        live := live - {d};
      }
    }
  }

  // ------------------------------------------------------- opaque capability

  class TrustedPrincipalRelay {
    const ttl: real
    var tokens: map<Digest, Timed<Capability>>

    constructor (ttl: real)
      requires 0.0 < ttl <= 60.0
      ensures this.ttl == ttl && tokens == map[]
    {
      this.ttl := ttl;
      tokens := map[];
    }

    /** `token` is the random text drawn for this capability. */
    method Issue(principal: Principal, binding: Binding, token: string, now: real)
      modifies this`tokens
      ensures tokens == OpaqueIssued(old(tokens), token, Capability(principal, binding), now, ttl)
    {
      tokens := Purge(tokens, now);
      tokens := tokens[TokenDigest(token) := Timed(now + ttl, Capability(principal, binding))];
    }

    method ResolveCapability(token: string, now: real) returns (r: Option<Capability>)
      modifies this`tokens
      ensures token == "" || |token| > MAX_OPAQUE_TOKEN ==> r.None? && tokens == old(tokens)
      ensures token != "" && |token| <= MAX_OPAQUE_TOKEN ==>
                && tokens == Unexpired(old(tokens), now)
                && r == OpaqueLookup(old(tokens), token, now)
    {
      if token == "" || |token| > MAX_OPAQUE_TOKEN {
        return None;
      }
      tokens := Purge(tokens, now);
      if TokenDigest(token) !in tokens {
        return None;
      }
      r := Some(tokens[TokenDigest(token)].value);
    }

    method Revoke(token: string)
      modifies this`tokens
      ensures tokens == old(tokens) - {TokenDigest(token)}
    {
      tokens := tokens - {TokenDigest(token)};
    }
  }

  function OpaqueLookup(tokens: map<Digest, Timed<Capability>>, token: string, now: real): Option<Capability> {
    var d := TokenDigest(token);
    if d in tokens && tokens[d].expires > now then Some(tokens[d].value) else None
  }

  function OpaqueIssued(tokens: map<Digest, Timed<Capability>>, token: string, c: Capability, now: real, ttl: real): map<Digest, Timed<Capability>> {
    Unexpired(tokens, now)[TokenDigest(token) := Timed(now + ttl, c)]
  }

  // What others do with the relay between two uses of a token: their tokens have
  // other digests, and any call may purge.
  datatype OpaqueStep = Issued(digest: Digest, entry: Timed<Capability>, now: real) | Looked(now: real) | Dropped(digest: Digest)

  ghost function OpaqueNext(tokens: map<Digest, Timed<Capability>>, step: OpaqueStep): map<Digest, Timed<Capability>> {
    match step
    case Issued(d, entry, now) => Unexpired(tokens, now)[d := entry]
    case Looked(now) => Unexpired(tokens, now)
    case Dropped(d) => tokens - {d}
  }

  ghost function OpaqueRun(tokens: map<Digest, Timed<Capability>>, steps: seq<OpaqueStep>): map<Digest, Timed<Capability>>
    decreases |steps|
  {
    if steps == [] then tokens else OpaqueRun(OpaqueNext(tokens, steps[0]), steps[1..])
  }

  ghost predicate Untouched(d: Digest, steps: seq<OpaqueStep>, before: real) {
    forall i :: 0 <= i < |steps| ==>
      match steps[i]
      case Issued(other, _, now) => other != d && now <= before
      case Looked(now) => now <= before
      case Dropped(other) => other != d
  }

  /** An opaque token resolves to what it was issued for, strictly before its expiry and not from then on. */
  lemma {:induction false} OpaqueUntilExpiry(tokens: map<Digest, Timed<Capability>>, steps: seq<OpaqueStep>, token: string, now: real)
    requires TokenDigest(token) in tokens && Untouched(TokenDigest(token), steps, now)
    ensures var entry := tokens[TokenDigest(token)];
            OpaqueLookup(OpaqueRun(tokens, steps), token, now) == if now < entry.expires then Some(entry.value) else None
    decreases |steps|
  {
    if steps != [] {
      var d := TokenDigest(token);
      var next := OpaqueNext(tokens, steps[0]);
      assert steps[0] in steps;
      if d in next {
        OpaqueUntilExpiry(next, steps[1..], token, now);
      } else {
        OpaqueGone(next, steps[1..], token, now);
      }
    }
  }

  /** Whatever others do, it resolves to what it was issued for until its time to live is over, and not from then on. */
  lemma OpaqueLivesItsTime(tokens: map<Digest, Timed<Capability>>, token: string, c: Capability, issued: real, ttl: real,
                           steps: seq<OpaqueStep>, now: real)
    requires Untouched(TokenDigest(token), steps, now)
    ensures OpaqueLookup(OpaqueRun(OpaqueIssued(tokens, token, c, issued, ttl), steps), token, now)
            == if now < issued + ttl then Some(c) else None
  {
    OpaqueUntilExpiry(OpaqueIssued(tokens, token, c, issued, ttl), steps, token, now);
  }

  /** A token that is not there, revoked or expired, never comes back. */
  lemma {:induction false} OpaqueGone(tokens: map<Digest, Timed<Capability>>, steps: seq<OpaqueStep>, token: string, now: real)
    requires TokenDigest(token) !in tokens
    requires forall i :: 0 <= i < |steps| && steps[i].Issued? ==> steps[i].digest != TokenDigest(token)
    ensures OpaqueLookup(OpaqueRun(tokens, steps), token, now) == None
    decreases |steps|
  {
    if steps != [] {
      var next := OpaqueNext(tokens, steps[0]);
      OpaqueGone(next, steps[1..], token, now);
    }
  }

  // ------------------------------------------------------- signed capability

  // The encoded payload and the encoded signature of a token with one dot.
  function FirstDot(s: string): (i: nat)
    ensures i <= |s| && (i < |s| ==> s[i] == '.') && forall j :: 0 <= j < i ==> s[j] != '.'
  {
    if s == "" || s[0] == '.' then 0 else 1 + FirstDot(s[1..])
  }

  function Parts(token: string): Option<(string, string)> {
    var i := FirstDot(token);
    if i == |token| then None
    else
      var encoded, signature := token[..i], token[i + 1..];
      if FirstDot(signature) < |signature| || encoded == "" || signature == "" then None else Some((encoded, signature))
  }

  /** The payload of a token whose signature is right. */
  function Opened(lib: Library, token: string): Option<Payload> {
    var parts := Parts(token);
    if parts.None? then None
    else
      var signed, raw := Decode(parts.value.1), Decode(parts.value.0);
      if signed.None? || signed.value != lib.sign(AsciiBytes(parts.value.0)) || raw.None? then None
      else lib.loads(raw.value)
  }

  predicate IsCurrent(p: Payload, audience: string, now: real) {
    && p.protocol == CAPABILITY_PROTOCOL && p.v == 1 && p.aud == audience
    && p.iat <= now.Floor + 2 && p.exp >= now.Floor && p.exp - p.iat <= 60
  }

  predicate IsComplete(p: Payload, identityDigest: string) {
    && p.tenant != "" && p.actor != "" && p.issuer != "" && p.subject != ""
    && p.tool != "" && p.digest != "" && p.jti != ""
    && (p.tool == ARTIFACT_READ || p.tool == IDENTITY_RELAY_TOOL)
    && (p.tool == IDENTITY_RELAY_TOOL ==> p.digest == identityDigest)
  }

  function CapabilityOf(p: Payload): Capability {
    Capability(Principal(p.tenant, p.actor, p.issuer, p.subject, Elements(p.scopes)), Binding(p.tool, p.digest))
  }

  /** What a token that is not revoked resolves to. */
  function Resolved(lib: Library, audience: string, token: string, now: real): Option<Capability> {
    if |token| > MAX_TOKEN then None
    else
      var p := Opened(lib, token);
      if p.None? || !IsCurrent(p.value, audience, now) || !IsComplete(p.value, lib.identityDigest) then None
      else Some(CapabilityOf(p.value))
  }

  function PayloadFor(lib: Library, audience: string, ttl: real, principal: Principal, binding: Binding, jti: string, now: real): Payload {
    Payload(CAPABILITY_PROTOCOL, 1, audience, now.Floor, now.Floor + ttl.Floor, jti,
            principal.tenant, principal.actor, principal.issuer, principal.subject, lib.sorted(principal.scopes),
            binding.tool, binding.digest)
  }

  function TokenFor(lib: Library, p: Payload): string {
    var encoded := B64(lib.dumps(p));
    encoded + "." + B64(lib.sign(AsciiBytes(encoded)))
  }

  class SignedPrincipalRelay {
    const lib: Library
    const audience: string
    const ttl: real
    var revoked: map<Digest, Timed<()>>

    constructor (lib: Library, audience: string, ttl: real)
      requires 0.0 < ttl <= 60.0
      ensures this.lib == lib && this.audience == audience && this.ttl == ttl && revoked == map[]
    {
      this.lib, this.audience, this.ttl := lib, audience, ttl;
      revoked := map[];
    }

    /** `jti` is the random identifier drawn for this capability. */
    method Issue(principal: Principal, binding: Binding, jti: string, now: real) returns (token: string)
      ensures token == TokenFor(lib, PayloadFor(lib, audience, ttl, principal, binding, jti, now))
    {
      var encoded := B64(lib.dumps(PayloadFor(lib, audience, ttl, principal, binding, jti, now)));
      var signature := lib.sign(AsciiBytes(encoded));
      token := encoded + "." + B64(signature);
    }

    /** The clock is read twice: to purge, and to judge the payload. */
    method ResolveCapability(token: string, purgeAt: real, now: real) returns (r: Option<Capability>)
      modifies this`revoked
      ensures revoked == AfterLookup(old(revoked), token, purgeAt)
      ensures r == if TokenDigest(token) in Unexpired(old(revoked), purgeAt) then None
                   else Resolved(lib, audience, token, now)
    {
      if |token| > MAX_TOKEN || !HasOneDot(token) {
        return None;
      }
      revoked := Purge(revoked, purgeAt);
      if TokenDigest(token) in revoked {
        return None;
      }
      var parts := Parts(token);
      if parts.None? {
        return None;
      }
      var signed := Decode(parts.value.1);
      if signed.None? || signed.value != lib.sign(AsciiBytes(parts.value.0)) {
        return None;
      }
      var raw := Decode(parts.value.0);
      if raw.None? {
        return None;
      }
      var p := lib.loads(raw.value);
      if p.None? || !IsCurrent(p.value, audience, now) || !IsComplete(p.value, lib.identityDigest) {
        return None;
      }
      r := Some(CapabilityOf(p.value));
    }

    method Revoke(token: string, now: real)
      modifies this`revoked
      ensures revoked == AfterRevoke(old(revoked), token, now)
    {
      if token == "" || |token| > MAX_TOKEN {
        return;
      }
      revoked := Purge(revoked, now);
      revoked := revoked[TokenDigest(token) := Timed(now + 60.0, ())];
    }
  }

  // A text that is not one payload and one signature is refused before the purge.
  predicate HasOneDot(token: string) {
    var i := FirstDot(token);
    i < |token| && FirstDot(token[i + 1..]) == |token[i + 1..]|
  }

  ghost function AfterLookup(revoked: map<Digest, Timed<()>>, token: string, purgeAt: real): map<Digest, Timed<()>> {
    if |token| > MAX_TOKEN || !HasOneDot(token) then revoked else Unexpired(revoked, purgeAt)
  }

  ghost function AfterRevoke(revoked: map<Digest, Timed<()>>, token: string, now: real): map<Digest, Timed<()>> {
    if token == "" || |token| > MAX_TOKEN then revoked
    else Unexpired(revoked, now)[TokenDigest(token) := Timed(now + 60.0, ())]
  }

  // ------------------------------------------------- issue, then resolve

  predicate CanBeIssued(lib: Library, principal: Principal, binding: Binding, jti: string) {
    && principal.tenant != "" && principal.actor != "" && principal.issuer != "" && principal.subject != "" && jti != ""
    && ((binding.tool == ARTIFACT_READ && binding.digest != "")
        || (binding.tool == IDENTITY_RELAY_TOOL && binding.digest == lib.identityDigest && binding.digest != ""))
  }

  lemma NoDotInB64(x: Bytes)
    ensures FirstDot(B64(x)) == |B64(x)|
  {
    B64Decodes(x);
  }

  lemma PartsOfJoined(encoded: string, signature: string)
    requires FirstDot(encoded) == |encoded| && FirstDot(signature) == |signature|
    requires encoded != "" && signature != ""
    ensures Parts(encoded + "." + signature) == Some((encoded, signature))
  {
    var token := encoded + "." + signature;
    var i := FirstDot(token);
    assert token[|encoded|] == '.';
    assert forall j :: 0 <= j < |encoded| ==> token[j] == encoded[j];
    assert token[..i] == encoded && token[i + 1..] == signature;
  }

  lemma IssuedOpens(lib: Library, p: Payload)
    requires Faithful(lib) && |TokenFor(lib, p)| <= MAX_TOKEN
    ensures Opened(lib, TokenFor(lib, p)) == Some(p)
  {
    var raw := lib.dumps(p);
    var encoded := B64(raw);
    var mac := lib.sign(AsciiBytes(encoded));
    B64Length(raw);
    B64Length(mac);
    NoDotInB64(raw);
    NoDotInB64(mac);
    PartsOfJoined(encoded, B64(mac));
    DecodeUndoesEncode(raw);
    DecodeUndoesEncode(mac);
  }

  /** A token resolves to the principal and binding it was issued for exactly until its last second is over. */
  lemma ResolvesUntilExpiry(lib: Library, audience: string, ttl: real, principal: Principal, binding: Binding,
                            jti: string, issued: real, now: real)
    requires Faithful(lib) && 0.0 < ttl <= 60.0 && CanBeIssued(lib, principal, binding, jti) && issued <= now
    requires |TokenFor(lib, PayloadFor(lib, audience, ttl, principal, binding, jti, issued))| <= MAX_TOKEN
    ensures Resolved(lib, audience, TokenFor(lib, PayloadFor(lib, audience, ttl, principal, binding, jti, issued)), now)
            == if now.Floor <= issued.Floor + ttl.Floor then Some(Capability(principal, binding)) else None
  {
    var p := PayloadFor(lib, audience, ttl, principal, binding, jti, issued);
    IssuedOpens(lib, p);
    hide Opened, TokenFor;
    assert Elements(p.scopes) == principal.scopes;
  }

  // The text that only the holder of the key can make of these bytes.
  function Sealed(lib: Library, raw: Bytes): string {
    B64(raw) + "." + B64(lib.sign(AsciiBytes(B64(raw))))
  }

  // What a payload must say to be honoured, claim by claim.
  ghost predicate Honoured(p: Payload, audience: string, identityDigest: string, now: real) {
    && p.protocol == "folio-renderer-capability/v1" && p.v == 1
    && p.aud == audience
    && p.iat <= now.Floor + 2 && now.Floor <= p.exp && p.exp <= p.iat + 60
    && "" !in [p.tenant, p.actor, p.issuer, p.subject, p.tool, p.digest, p.jti]
    && (p.tool == "artifact_read" || (p.tool == "__identity__" && p.digest == identityDigest))
  }

  // The bytes are a payload that is honoured, and the capability is what it says.
  ghost predicate Carries(lib: Library, audience: string, raw: Bytes, now: real, c: Capability) {
    && raw != [] && lib.loads(raw).Some?
    && var p := lib.loads(raw).value;
       && Honoured(p, audience, lib.identityDigest, now)
       && c == Capability(Principal(p.tenant, p.actor, p.issuer, p.subject, Elements(p.scopes)), Binding(p.tool, p.digest))
  }

  lemma PartsJoin(token: string)
    requires Parts(token).Some?
    ensures token == Parts(token).value.0 + "." + Parts(token).value.1
  {
    var i := FirstDot(token);
    assert token == token[..i] + [token[i]] + token[i + 1..];
  }

  lemma OpenedIsSealed(lib: Library, token: string) returns (raw: Bytes)
    requires Opened(lib, token).Some?
    ensures raw != [] && token == Sealed(lib, raw) && lib.loads(raw) == Opened(lib, token)
  {
    PartsJoin(token);
    hide Decode, B64, FirstDot, AsciiBytes, Parts;
    var (encoded, signature) := Parts(token).value;
    raw := Decode(encoded).value;
    AcceptedIffCanonical(encoded);
    AcceptedIffCanonical(signature);
    DecodesToSome(encoded);
  }

  lemma DecodesToSome(s: string)
    requires Decode(s).Some?
    ensures Decode(s).value != []
  {
    AcceptedIffCanonical(s);
  }

  lemma SealedOpens(lib: Library, raw: Bytes)
    requires Faithful(lib) && raw != [] && |Sealed(lib, raw)| <= MAX_TOKEN
    ensures Opened(lib, Sealed(lib, raw)) == lib.loads(raw)
  {
    var encoded := B64(raw);
    var mac := lib.sign(AsciiBytes(encoded));
    B64Length(raw);
    B64Length(mac);
    NoDotInB64(raw);
    NoDotInB64(mac);
    PartsOfJoined(encoded, B64(mac));
    DecodeUndoesEncode(raw);
    DecodeUndoesEncode(mac);
  }

  /**
   * A token resolves to a capability exactly when it is short enough, carries a payload
   * under the signature that the key gives just this payload, every claim is honoured,
   * and the capability is what the payload says.
   */
  lemma ResolvedIffSealed(lib: Library, audience: string, token: string, now: real, c: Capability)
    requires Faithful(lib)
    ensures Resolved(lib, audience, token, now) == Some(c) <==>
              |token| <= 4096 && exists raw :: token == Sealed(lib, raw) && Carries(lib, audience, raw, now, c)
  {
    hide Opened, Sealed, IsCurrent, IsComplete, Honoured;
    if Resolved(lib, audience, token, now) == Some(c) {
      var raw := OpenedIsSealed(lib, token);
      HonouredIffAccepted(lib.loads(raw).value, audience, lib.identityDigest, now);
      assert Carries(lib, audience, raw, now, c);
    }
    if |token| <= 4096 && exists raw :: token == Sealed(lib, raw) && Carries(lib, audience, raw, now, c) {
      var raw :| token == Sealed(lib, raw) && Carries(lib, audience, raw, now, c);
      HonouredIffAccepted(lib.loads(raw).value, audience, lib.identityDigest, now);
      SealedOpens(lib, raw);
    }
  }

  lemma HonouredIffAccepted(p: Payload, audience: string, identityDigest: string, now: real)
    ensures Honoured(p, audience, identityDigest, now) <==> IsCurrent(p, audience, now) && IsComplete(p, identityDigest)
  {
  }

  // ----------------------------------------------------------- revocation

  datatype RelayStep = Lookup(token: string, purgeAt: real) | Revocation(token: string, now: real)

  function TimeOf(step: RelayStep): real {
    match step
    case Lookup(_, purgeAt) => purgeAt
    case Revocation(_, now) => now
  }

  ghost function RelayNext(revoked: map<Digest, Timed<()>>, step: RelayStep): map<Digest, Timed<()>> {
    match step
    case Lookup(token, purgeAt) => AfterLookup(revoked, token, purgeAt)
    case Revocation(token, now) => AfterRevoke(revoked, token, now)
  }

  ghost function RelayRun(revoked: map<Digest, Timed<()>>, steps: seq<RelayStep>): map<Digest, Timed<()>>
    decreases |steps|
  {
    if steps == [] then revoked else RelayRun(RelayNext(revoked, steps[0]), steps[1..])
  }

  // Denied until a minute after the revocation, or that minute is over.
  ghost predicate DeniedSince(revoked: map<Digest, Timed<()>>, d: Digest, since: real, now: real) {
    (d in revoked && revoked[d].expires >= since + 60.0) || now >= since + 60.0
  }

  lemma {:induction false} StaysDenied(revoked: map<Digest, Timed<()>>, steps: seq<RelayStep>, d: Digest, since: real, from: real, now: real)
    requires DeniedSince(revoked, d, since, from) && since <= from <= now
    requires forall i, j :: 0 <= i < j < |steps| ==> TimeOf(steps[i]) <= TimeOf(steps[j])
    requires forall i :: 0 <= i < |steps| ==> from <= TimeOf(steps[i]) <= now
    ensures DeniedSince(RelayRun(revoked, steps), d, since, now)
    decreases |steps|
  {
    if steps != [] {
      StaysDenied(RelayNext(revoked, steps[0]), steps[1..], d, since, TimeOf(steps[0]), now);
    }
  }

  // What a lookup at (purgeAt, now) answers after the steps.
  ghost function AnswerAfter(lib: Library, audience: string, revoked: map<Digest, Timed<()>>, steps: seq<RelayStep>,
                             token: string, purgeAt: real, now: real): Option<Capability>
  {
    if TokenDigest(token) in Unexpired(RelayRun(revoked, steps), purgeAt) then None
    else Resolved(lib, audience, token, now)
  }

  /**
   * With a time to live below 60 whole seconds a revoked token never resolves
   * again, although its entry in the denylist is purged after a minute.
   */
  lemma RevokedNeverResolves(lib: Library, audience: string, ttl: real, principal: Principal, binding: Binding, jti: string,
                             issued: real, revoked: map<Digest, Timed<()>>, revokedAt: real, steps: seq<RelayStep>,
                             purgeAt: real, now: real)
    requires Faithful(lib) && 0.0 < ttl && ttl.Floor <= 59 && CanBeIssued(lib, principal, binding, jti)
    requires |TokenFor(lib, PayloadFor(lib, audience, ttl, principal, binding, jti, issued))| <= MAX_TOKEN
    requires issued <= revokedAt <= purgeAt <= now
    requires forall i, j :: 0 <= i < j < |steps| ==> TimeOf(steps[i]) <= TimeOf(steps[j])
    requires forall i :: 0 <= i < |steps| ==> revokedAt <= TimeOf(steps[i]) <= purgeAt
    ensures var token := TokenFor(lib, PayloadFor(lib, audience, ttl, principal, binding, jti, issued));
            AnswerAfter(lib, audience, AfterRevoke(revoked, token, revokedAt), steps, token, purgeAt, now) == None
  {
    var token := TokenFor(lib, PayloadFor(lib, audience, ttl, principal, binding, jti, issued));
    ResolvesUntilExpiry(lib, audience, ttl, principal, binding, jti, issued, now);
    TokenIsNotEmpty(lib, PayloadFor(lib, audience, ttl, principal, binding, jti, issued));
    hide TokenFor, Resolved, CanBeIssued;
    StaysDenied(AfterRevoke(revoked, token, revokedAt), steps, TokenDigest(token), revokedAt, revokedAt, purgeAt);
    assert purgeAt >= revokedAt + 60.0 ==> now.Floor >= issued.Floor + 60;
  }

  lemma TokenIsNotEmpty(lib: Library, p: Payload)
    ensures TokenFor(lib, p) != ""
  {
    var encoded := B64(lib.dumps(p));
    assert TokenFor(lib, p)[|encoded|] == '.';
  }

  /** At 60 seconds it does: revoked as soon as issued, it resolves again in its last second, once its entry is purged. */
  lemma RevokedMayResolveAtSixty(lib: Library, audience: string, principal: Principal, binding: Binding, jti: string)
    requires Faithful(lib) && CanBeIssued(lib, principal, binding, jti)
    requires |TokenFor(lib, PayloadFor(lib, audience, 60.0, principal, binding, jti, 0.0))| <= MAX_TOKEN
    ensures var token := TokenFor(lib, PayloadFor(lib, audience, 60.0, principal, binding, jti, 0.0));
            AnswerAfter(lib, audience, AfterRevoke(map[], token, 0.0), [], token, 60.0, 60.0)
            == Some(Capability(principal, binding))
  {
    ResolvesUntilExpiry(lib, audience, 60.0, principal, binding, jti, 0.0, 60.0);
    hide TokenFor, Resolved, CanBeIssued;
  }

  // The token was issued, then revoked, and a later lookup still resolved it.
  ghost predicate ResolvesThoughRevoked(lib: Library, audience: string, ttl: real, principal: Principal, binding: Binding,
                                        jti: string, issued: real, revokedAt: real, steps: seq<RelayStep>,
                                        purgeAt: real, now: real)
  {
    var token := TokenFor(lib, PayloadFor(lib, audience, ttl, principal, binding, jti, issued));
    && |token| <= MAX_TOKEN
    && issued <= revokedAt <= purgeAt <= now
    && (forall i, j :: 0 <= i < j < |steps| ==> TimeOf(steps[i]) <= TimeOf(steps[j]))
    && (forall i :: 0 <= i < |steps| ==> revokedAt <= TimeOf(steps[i]) <= purgeAt)
    && AnswerAfter(lib, audience, AfterRevoke(map[], token, revokedAt), steps, token, purgeAt, now).Some?
  }

  /** Revocation can be outlived exactly at the largest time to live the constructor accepts. */
  lemma OutlivesRevocationIffSixty(lib: Library, audience: string, ttl: real, principal: Principal, binding: Binding, jti: string)
    requires Faithful(lib) && 0.0 < ttl <= 60.0 && CanBeIssued(lib, principal, binding, jti)
    requires |TokenFor(lib, PayloadFor(lib, audience, 60.0, principal, binding, jti, 0.0))| <= MAX_TOKEN
    ensures (exists issued, revokedAt, steps, purgeAt, now ::
               ResolvesThoughRevoked(lib, audience, ttl, principal, binding, jti, issued, revokedAt, steps, purgeAt, now))
            <==> ttl == 60.0
  {
    if ttl == 60.0 {
      RevokedMayResolveAtSixty(lib, audience, principal, binding, jti);
      hide TokenFor, AnswerAfter, CanBeIssued, Faithful;
      assert ResolvesThoughRevoked(lib, audience, ttl, principal, binding, jti, 0.0, 0.0, [], 60.0, 60.0);
    } else {
      forall issued, revokedAt, steps, purgeAt, now
        ensures !ResolvesThoughRevoked(lib, audience, ttl, principal, binding, jti, issued, revokedAt, steps, purgeAt, now)
      {
        NotThoughRevoked(lib, audience, ttl, principal, binding, jti, issued, revokedAt, steps, purgeAt, now);
      }
    }
  }

  lemma NotThoughRevoked(lib: Library, audience: string, ttl: real, principal: Principal, binding: Binding, jti: string,
                         issued: real, revokedAt: real, steps: seq<RelayStep>, purgeAt: real, now: real)
    requires Faithful(lib) && 0.0 < ttl < 60.0 && CanBeIssued(lib, principal, binding, jti)
    ensures !ResolvesThoughRevoked(lib, audience, ttl, principal, binding, jti, issued, revokedAt, steps, purgeAt, now)
  {
    if ResolvesThoughRevoked(lib, audience, ttl, principal, binding, jti, issued, revokedAt, steps, purgeAt, now) {
      RevokedNeverResolves(lib, audience, ttl, principal, binding, jti, issued, map[], revokedAt, steps, purgeAt, now);
    }
  }
}
