/**
 * The signed `platform_exec` token: the platform's issuer, the device's verifier, and the device's
 * replay window over whole runs of verifications and reboots. HMAC and JSON text are parameters.
 */
module PlatformToken {
  import opened Base64Url

  datatype Option<T> = None | Some(value: T)

  const TOKEN_TTL_SECONDS := 60
  const SEGMENT_MAX_CHARS := 1024
  const PAYLOAD_MAX_BYTES := 768
  const ISSUED_AT_BACKDATE_SECONDS := 25

  const SECRET_MIN_BYTES := 16
  const SEGMENT_MAX := 1024
  const PAYLOAD_MAX := 768
  const SIGNATURE_MAX := 64
  const NONCE_WINDOW := 16
  const NONCE_STORED := 47
  const MAX_TTL_S := 60
  const CLOCK_SKEW_S := 5
  const MIN_VALID_EPOCH := 1704067200

  const TARGETS: seq<string> := [
    "ota_update", "mqtt_configure", "network_configure", "vpn_configure", "vpn_connect",
    "vpn_disconnect", "wireguard_configure", "list_agents", "inspect_agent"
  ]

  /** The input object of a capability call; its contents are never inspected here. */
  type Input = map<string, string>

  datatype Payload = Payload(
    deviceId: string, capability: string, input: Input, issuedAt: int, expiresAt: int, nonce: string)

  /**
   * What `JSON.parse` yields, as far as the verifier looks at it. A field is None when it is absent
   * or has another type; reading a field of the document `null` throws.
   */
  datatype Json =
    | NullDocument
    | Document(
        deviceId: Option<string>, capability: Option<string>, input: Option<Input>,
        issuedAt: Option<int>, expiresAt: Option<int>, nonce: Option<string>)

  function AsJson(p: Payload): Json {
    Document(Some(p.deviceId), Some(p.capability), Some(p.input), Some(p.issuedAt), Some(p.expiresAt), Some(p.nonce))
  }

  /** The library functions the protocol rests on. */
  datatype Library = Library(
    hmac: (seq<byte>, string) -> seq<byte>,
    stringify: Payload -> seq<byte>,
    parse: seq<byte> -> Option<Json>)
  {
    /** A SHA-256 digest has 32 bytes; parsing undoes printing; empty text is not JSON. */
    ghost predicate Lawful() {
      && (forall key, text :: |hmac(key, text)| == 32)
      && (forall p :: parse(stringify(p)) == Some(AsJson(p)))
      && parse([]) == None
    }
  }

  // ----- issuing -----

  datatype SignError = InvalidTarget | TooLarge

  datatype SignResult = Signed(token: string, payload: Payload) | Refused(error: SignError)

  function PayloadAt(deviceId: string, capability: string, input: Input, now: int, nonce: string): Payload {
    var issuedAt := now - ISSUED_AT_BACKDATE_SECONDS;
    Payload(deviceId, capability, input, issuedAt, issuedAt + TOKEN_TTL_SECONDS, nonce)
  }

  function SignPlatformToken(
    lib: Library, secret: seq<byte>, deviceId: string, capability: string, input: Input, now: int, nonce: string
  ): SignResult
  {
    if capability !in TARGETS then Refused(InvalidTarget)
    else
      var payload := PayloadAt(deviceId, capability, input, now, nonce);
      var json := lib.stringify(payload);
      if |json| > PAYLOAD_MAX_BYTES then Refused(TooLarge)
      else
        var segment := ToBase64Url(json);
        if |segment| > SEGMENT_MAX_CHARS then Refused(TooLarge)
        else Signed(segment + "." + ToBase64Url(lib.hmac(secret, segment)), payload)
  }

  /** The issuer refuses exactly unlisted targets and payloads over 768 bytes: the second size guard never fires. */
  lemma SigningRefusals(
    lib: Library, secret: seq<byte>, deviceId: string, capability: string, input: Input, now: int, nonce: string)
    ensures var r := SignPlatformToken(lib, secret, deviceId, capability, input, now, nonce);
      && (r == Refused(InvalidTarget) <==> capability !in TARGETS)
      && (r == Refused(TooLarge) <==>
            capability in TARGETS
            && |lib.stringify(PayloadAt(deviceId, capability, input, now, nonce))| > PAYLOAD_MAX_BYTES)
  {
    EncodedShape(lib.stringify(PayloadAt(deviceId, capability, input, now, nonce)));
  }

  // ----- verifying -----

  datatype VerifyError =
    | SecretNotConfigured | TokenRequired | MalformedToken | MalformedSignature | InvalidSignature
    | MalformedPayload | NotJson | WrongDevice | MissingCapability | TargetNotAllowed | InvalidWindow
    | ClockNotSet | ExpiredOrNotYetValid | Replay

  /** Thrown: the verifier's own exception, on a payload that is the JSON document `null`. */
  datatype VerifyResult = Accepted(capability: string, input: Input) | Rejected(error: VerifyError) | Thrown

  function IndexOfDot(text: string): int {
    if text == "" then -1
    else if text[0] == '.' then 0
    else
      var i := IndexOfDot(text[1..]);
      if i < 0 then -1 else i + 1
  }

  lemma {:induction false} DotIsFound(before: string, after: string)
    requires '.' !in before
    ensures IndexOfDot(before + "." + after) == |before|
  {
    var text := before + "." + after;
    if before != "" {
      assert text[1..] == before[1..] + "." + after;
      DotIsFound(before[1..], after);
    }
  }

  /** The device's base64url decoding with its size limits; None where it reports an error. */
  function Decode(segment: string, maxDecoded: nat): Option<seq<byte>> {
    if |segment| == 0 || |segment| > SEGMENT_MAX then None
    else match FromBase64Url(segment)
      case Err(_) => None
      case Ok(bytes) => if |bytes| > maxDecoded then None else Some(bytes)
  }

  function IntOr(value: Option<int>, default: int): int {
    if value.Some? then value.value else default
  }

  /** The checks on a parsed payload, given the nonces still remembered. */
  function CheckDocument(doc: Json, ownDeviceId: string, seen: seq<string>, now: int): VerifyResult
    requires doc.Document?
  {
    var issuedAt, expiresAt := IntOr(doc.issuedAt, -1), IntOr(doc.expiresAt, -1);
    if doc.deviceId != Some(ownDeviceId) then Rejected(WrongDevice)
    else if doc.capability.None? || doc.capability.value == "" then Rejected(MissingCapability)
    else if doc.capability.value !in TARGETS then Rejected(TargetNotAllowed)
    else if issuedAt < 0 || expiresAt < 0 || expiresAt <= issuedAt || expiresAt - issuedAt > MAX_TTL_S then
      Rejected(InvalidWindow)
    else if now < MIN_VALID_EPOCH then Rejected(ClockNotSet)
    else if now < issuedAt - CLOCK_SKEW_S || now > expiresAt then Rejected(ExpiredOrNotYetValid)
    else if doc.nonce.None? || doc.nonce.value == "" || doc.nonce.value in seen then Rejected(Replay)
    else Accepted(doc.capability.value, if doc.input.Some? then doc.input.value else map[])
  }

  datatype Opening = Opened(doc: Json) | Closed(error: VerifyError)

  /** The payload of a token whose form and signature are right. */
  function OpenToken(lib: Library, secret: Option<seq<byte>>, token: string): Opening {
    if secret.None? || |secret.value| < SECRET_MIN_BYTES then Closed(SecretNotConfigured)
    else if token == "" then Closed(TokenRequired)
    else
      var dot := IndexOfDot(token);
      if dot <= 0 || dot >= |token| - 1 then Closed(MalformedToken)
      else OpenParts(lib, secret.value, token[..dot], token[dot + 1..])
  }

  /** The checks on the two parts of a token. */
  function OpenParts(lib: Library, secret: seq<byte>, segment: string, sigSegment: string): Opening {
    var sig := Decode(sigSegment, SIGNATURE_MAX);
    if sig.None? || |sig.value| != 32 then Closed(MalformedSignature)
    else if lib.hmac(secret, segment) != sig.value then Closed(InvalidSignature)
    else
      var bytes := Decode(segment, PAYLOAD_MAX);
      if bytes.None? then Closed(MalformedPayload)
      else
        var json := lib.parse(bytes.value);
        if json.None? then Closed(NotJson) else Opened(json.value)
  }

  function VerifyOutcome(
    lib: Library, secret: Option<seq<byte>>, ownDeviceId: string, seen: seq<string>, token: string, now: int
  ): VerifyResult
  {
    match OpenToken(lib, secret, token)
    case Closed(error) => Rejected(error)
    case Opened(doc) => if doc.NullDocument? then Thrown else CheckDocument(doc, ownDeviceId, seen, now)
  }

  /** The nonce a token carries, for tokens that open. */
  function NonceOf(lib: Library, secret: Option<seq<byte>>, token: string): string {
    match OpenToken(lib, secret, token)
    case Closed(_) => ""
    case Opened(doc) => if doc.Document? && doc.nonce.Some? then doc.nonce.value else ""
  }

  /** What the device remembers of a nonce: the first 47 characters. */
  function Stored(nonce: string): string {
    if |nonce| > NONCE_STORED then nonce[..NONCE_STORED] else nonce
  }

  /** push, then shift when the window is over-full. */
  function Remember(seen: seq<string>, nonce: string): seq<string> {
    var longer := seen + [Stored(nonce)];
    if |longer| > NONCE_WINDOW then longer[1..] else longer
  }

  /** The device decodes whatever the issuer encodes, within the size limits. */
  lemma DecodeOfEncode(bytes: seq<byte>, maxDecoded: nat)
    requires 1 <= |bytes| <= PAYLOAD_MAX && |bytes| <= maxDecoded
    ensures Decode(ToBase64Url(bytes), maxDecoded) == Some(bytes)
    ensures '.' !in ToBase64Url(bytes) && ToBase64Url(bytes) != ""
  {
    EncodedShape(bytes);
    RoundTrip(bytes);
  }

  lemma EncodedTokenOpens(lib: Library, secret: seq<byte>, json: seq<byte>, doc: Json)
    requires |secret| >= SECRET_MIN_BYTES && 1 <= |json| <= PAYLOAD_MAX && lib.parse(json) == Some(doc)
    requires |lib.hmac(secret, ToBase64Url(json))| == 32
    ensures var segment := ToBase64Url(json);
      OpenToken(lib, Some(secret), segment + "." + ToBase64Url(lib.hmac(secret, segment))) == Opened(doc)
  {
    var segment := ToBase64Url(json);
    var digest := lib.hmac(secret, segment);
    var sig := ToBase64Url(digest);
    var token := segment + "." + sig;
    DecodeOfEncode(json, PAYLOAD_MAX);
    DecodeOfEncode(digest, SIGNATURE_MAX);
    TokenParts(segment, sig);
  }

  lemma TokenParts(segment: string, sig: string)
    requires '.' !in segment
    ensures var token := segment + "." + sig;
      && token != "" && |token| == |segment| + 1 + |sig| && IndexOfDot(token) == |segment|
      && token[..|segment|] == segment && token[|segment| + 1..] == sig
  {
    DotIsFound(segment, sig);
  }

  /** Signed segments pass every size and alphabet check of the device and carry the payload unchanged. */
  lemma SignedTokenOpens(
    lib: Library, secret: seq<byte>, deviceId: string, capability: string, input: Input, now: int, nonce: string)
    requires lib.Lawful() && |secret| >= SECRET_MIN_BYTES
    requires SignPlatformToken(lib, secret, deviceId, capability, input, now, nonce).Signed?
    ensures var r := SignPlatformToken(lib, secret, deviceId, capability, input, now, nonce);
      OpenToken(lib, Some(secret), r.token) == Opened(AsJson(r.payload))
  {
    var payload := PayloadAt(deviceId, capability, input, now, nonce);
    var json := lib.stringify(payload);
    assert lib.parse(json) == Some(AsJson(payload));
    EncodedTokenOpens(lib, secret, json, AsJson(payload));
  }

  /**
   * Issuer and verifier agree: with the same secret and device id, a set clock and a fresh non-empty
   * nonce, a token signed at `now` is accepted at device time `clock` exactly from 30 s before to 35 s
   * after, and then yields the signed capability and input.
   */
  lemma Agreement(
    lib: Library, secret: seq<byte>, deviceId: string, capability: string, input: Input, now: int, nonce: string,
    seen: seq<string>, clock: int)
    requires lib.Lawful() && |secret| >= SECRET_MIN_BYTES
    requires SignPlatformToken(lib, secret, deviceId, capability, input, now, nonce).Signed?
    requires nonce != "" && nonce !in seen && clock >= MIN_VALID_EPOCH
    ensures var token := SignPlatformToken(lib, secret, deviceId, capability, input, now, nonce).token;
      var r := VerifyOutcome(lib, Some(secret), deviceId, seen, token, clock);
      && (r == Accepted(capability, input) <==> now - 30 <= clock <= now + 35)
      && (r.Accepted? ==> r == Accepted(capability, input))
  {
    SignedTokenOpens(lib, secret, deviceId, capability, input, now, nonce);
    SignedPayloadPasses(PayloadAt(deviceId, capability, input, now, nonce), seen, clock);
  }

  lemma SignedPayloadPasses(p: Payload, seen: seq<string>, clock: int)
    requires p.capability in TARGETS && p.expiresAt == p.issuedAt + TOKEN_TTL_SECONDS
    requires p.nonce != "" && p.nonce !in seen && clock >= MIN_VALID_EPOCH
    ensures var r := CheckDocument(AsJson(p), p.deviceId, seen, clock);
      && (r == Accepted(p.capability, p.input) <==> p.issuedAt - CLOCK_SKEW_S <= clock <= p.expiresAt)
      && (r.Accepted? ==> r == Accepted(p.capability, p.input))
  {
    assert forall i | 0 <= i < |TARGETS| :: |TARGETS[i]| > 0;
  }

  /** A signed token is refused by every other device, whatever its clock and memory. */
  lemma WrongDeviceRefuses(
    lib: Library, secret: seq<byte>, deviceId: string, capability: string, input: Input, now: int, nonce: string,
    other: string, seen: seq<string>, clock: int)
    requires lib.Lawful() && |secret| >= SECRET_MIN_BYTES && other != deviceId
    requires SignPlatformToken(lib, secret, deviceId, capability, input, now, nonce).Signed?
    ensures var token := SignPlatformToken(lib, secret, deviceId, capability, input, now, nonce).token;
      VerifyOutcome(lib, Some(secret), other, seen, token, clock) == Rejected(WrongDevice)
  {
    SignedTokenOpens(lib, secret, deviceId, capability, input, now, nonce);
  }

  // ----- the replay window -----

  /** What one verification or reboot means for the window. */
  datatype Mark = Accept(nonce: string) | Clear | Skip

  function Apply(seen: seq<string>, mark: Mark): seq<string> {
    match mark
    case Accept(nonce) => Remember(seen, nonce)
    case Clear => []
    case Skip => seen
  }

  /** The window after a list of marks, from a cold start. */
  function Window(marks: seq<Mark>): seq<string> {
    if marks == [] then [] else Apply(Window(marks[..|marks| - 1]), marks[|marks| - 1])
  }

  /** The nonces accepted since the last reboot, oldest first. */
  function AcceptedSince(marks: seq<Mark>): seq<string> {
    if marks == [] then []
    else
      var before := AcceptedSince(marks[..|marks| - 1]);
      match marks[|marks| - 1]
      case Accept(nonce) => before + [nonce]
      case Clear => []
      case Skip => before
  }

  /** How many acceptances a list of marks holds. */
  function Acceptances(marks: seq<Mark>): nat {
    if marks == [] then 0
    else Acceptances(marks[..|marks| - 1]) + (if marks[|marks| - 1].Accept? then 1 else 0)
  }

  /** Each nonce was accepted while absent from the window, and fits the device's memory slot. */
  predicate Fresh(marks: seq<Mark>) {
    forall i | 0 <= i < |marks| :: marks[i].Accept? ==>
      marks[i].nonce !in Window(marks[..i]) && |marks[i].nonce| <= NONCE_STORED
  }

  function LastUpTo<T>(xs: seq<T>, n: nat): seq<T> {
    if |xs| > n then xs[|xs| - n..] else xs
  }

  predicate NoDuplicates<T(==)>(xs: seq<T>) {
    forall i, j | 0 <= i < j < |xs| :: xs[i] != xs[j]
  }

  lemma RememberIsRecent(all: seq<string>, nonce: string)
    requires |nonce| <= NONCE_STORED
    ensures Remember(LastUpTo(all, NONCE_WINDOW), nonce) == LastUpTo(all + [nonce], NONCE_WINDOW)
  {
  }

  /** The window holds exactly the last min(16, k) of the k nonces accepted since the reboot, all different. */
  lemma {:induction false} WindowIsRecent(marks: seq<Mark>)
    requires Fresh(marks)
    ensures Window(marks) == LastUpTo(AcceptedSince(marks), NONCE_WINDOW)
    ensures NoDuplicates(Window(marks))
  {
    if marks != [] {
      var n := |marks| - 1;
      var before := marks[..n];
      forall i | 0 <= i < n ensures before[..i] == marks[..i] {}
      WindowIsRecent(before);
      if marks[n].Accept? {
        RememberIsRecent(AcceptedSince(before), marks[n].nonce);
        assert marks[n].nonce !in Window(before);
      }
    }
  }

  /** Without a reboot, later acceptances are appended to the earlier ones. */
  lemma {:induction false} AcceptancesAppend(marks: seq<Mark>, more: seq<Mark>)
    requires Clear !in more
    ensures AcceptedSince(marks) <= AcceptedSince(marks + more)
    ensures |AcceptedSince(marks + more)| == |AcceptedSince(marks)| + Acceptances(more)
  {
    if more == [] {
      assert marks + more == marks;
    } else {
      var n := |more| - 1;
      assert more[n] in more;
      forall m | m in more[..n] ensures m in more {}
      AcceptancesAppend(marks, more[..n]);
      assert (marks + more)[..|marks + more| - 1] == marks + more[..n];
      assert (marks + more)[|marks + more| - 1] == more[n];
    }
  }

  lemma TailHolds<T>(all: seq<T>, place: nat, n: nat)
    requires place < |all| <= place + n
    ensures all[place] in LastUpTo(all, n)
  {
    if |all| > n {
      assert LastUpTo(all, n)[place - (|all| - n)] == all[place];
    }
  }

  /** A nonce accepted fewer than 16 acceptances ago, with no reboot since, is still remembered. */
  lemma RecentIsRemembered(marks: seq<Mark>, nonce: string, rest: seq<Mark>)
    requires Fresh(marks + [Accept(nonce)] + rest)
    requires Clear !in rest && Acceptances(rest) < NONCE_WINDOW
    ensures nonce in Window(marks + [Accept(nonce)] + rest)
  {
    var early := marks + [Accept(nonce)];
    WindowIsRecent(early + rest);
    assert early[..|early| - 1] == marks;
    AcceptancesAppend(early, rest);
    var first, all := AcceptedSince(early), AcceptedSince(early + rest);
    assert first == AcceptedSince(marks) + [nonce];
    assert all[|first| - 1] == first[|first| - 1];
    TailHolds(all, |first| - 1, NONCE_WINDOW);
  }

  /** Marks at two positions that accept one nonce have a reboot or 16 acceptances between them. */
  lemma RepeatIsLate(marks: seq<Mark>, i: nat, j: nat)
    requires Fresh(marks) && i < j < |marks|
    requires marks[i].Accept? && marks[i] == marks[j]
    ensures Clear in marks[i + 1..j] || Acceptances(marks[i + 1..j]) >= NONCE_WINDOW
  {
    var nonce, rest := marks[i].nonce, marks[i + 1..j];
    if Clear !in rest && Acceptances(rest) < NONCE_WINDOW {
      var early := marks[..j];
      assert early == marks[..i] + [Accept(nonce)] + rest;
      forall k | 0 <= k < j ensures early[..k] == marks[..k] {}
      RecentIsRemembered(marks[..i], nonce, rest);
    }
  }

  // ----- the device over whole runs -----

  /** One thing that happens to a device. */
  datatype Happening = Verify(token: string, now: int) | Reboot

  /** The device under test: its secret, its id and the library it uses. */
  datatype Device = Device(lib: Library, secret: Option<seq<byte>>, id: string) {
    function Outcome(seen: seq<string>, token: string, now: int): VerifyResult {
      VerifyOutcome(lib, secret, id, seen, token, now)
    }

    function MarkOf(seen: seq<string>, h: Happening): Mark {
      match h
      case Reboot => Clear
      case Verify(token, now) =>
        if Outcome(seen, token, now).Accepted? then Accept(NonceOf(lib, secret, token)) else Skip
    }

    /** The marks of a run that starts with an empty window. */
    function Marks(run: seq<Happening>): (marks: seq<Mark>)
      ensures |marks| == |run|
    {
      if run == [] then []
      else
        var before := Marks(run[..|run| - 1]);
        before + [MarkOf(Window(before), run[|run| - 1])]
    }

    /** The nonces the device remembers after a run. */
    function SeenAfter(run: seq<Happening>): seq<string> {
      Window(Marks(run))
    }

    /** Happening `i` of the run was an acceptance. */
    predicate AcceptedAt(run: seq<Happening>, i: nat)
      requires i < |run|
    {
      run[i].Verify? && Outcome(SeenAfter(run[..i]), run[i].token, run[i].now).Accepted?
    }

    function NonceAt(run: seq<Happening>, i: nat): string
      requires i < |run|
    {
      if run[i].Verify? then NonceOf(lib, secret, run[i].token) else ""
    }

    /** Every accepted nonce fits the device's memory slot (platform nonces have 22 characters). */
    predicate ShortNonces(run: seq<Happening>) {
      forall i | 0 <= i < |run| :: AcceptedAt(run, i) ==> |NonceAt(run, i)| <= NONCE_STORED
    }
  }

  lemma AcceptedIsNew(d: Device, seen: seq<string>, token: string, now: int)
    requires d.Outcome(seen, token, now).Accepted?
    ensures NonceOf(d.lib, d.secret, token) !in seen
  {
  }

  lemma {:induction false} MarksPrefix(d: Device, run: seq<Happening>, i: nat)
    requires i <= |run|
    ensures d.Marks(run)[..i] == d.Marks(run[..i])
    decreases |run|
  {
    if i < |run| {
      var front := run[..|run| - 1];
      MarksPrefix(d, front, i);
      assert front[..i] == run[..i];
      assert d.Marks(run)[..i] == d.Marks(front)[..i];
    } else {
      assert run[..i] == run;
    }
  }

  /** What the marks of a run say: position by position, whether and with which nonce it was accepted. */
  lemma MarkAt(d: Device, run: seq<Happening>, i: nat)
    requires i < |run|
    ensures d.Marks(run)[i] == d.MarkOf(d.SeenAfter(run[..i]), run[i])
    ensures d.Marks(run)[i].Accept? <==> d.AcceptedAt(run, i)
    ensures d.AcceptedAt(run, i) ==> d.Marks(run)[i] == Accept(d.NonceAt(run, i))
    ensures d.Marks(run)[i] == Clear <==> run[i].Reboot?
  {
    MarksPrefix(d, run, i + 1);
    assert run[..i + 1][..i] == run[..i];
    assert d.Marks(run)[i] == d.Marks(run)[..i + 1][i];
  }

  lemma RunIsFresh(d: Device, run: seq<Happening>)
    requires d.ShortNonces(run)
    ensures Fresh(d.Marks(run))
  {
    var marks := d.Marks(run);
    forall i | 0 <= i < |marks| && marks[i].Accept?
      ensures marks[i].nonce !in Window(marks[..i]) && |marks[i].nonce| <= NONCE_STORED
    {
      MarkAt(d, run, i);
      MarksPrefix(d, run, i);
      AcceptedIsNew(d, d.SeenAfter(run[..i]), run[i].token, run[i].now);
    }
  }

  /** In every run of verifications and reboots the device remembers exactly the recent acceptances. */
  lemma SeenIsRecent(d: Device, run: seq<Happening>)
    requires d.ShortNonces(run)
    ensures d.SeenAfter(run) == LastUpTo(AcceptedSince(d.Marks(run)), NONCE_WINDOW)
    ensures NoDuplicates(d.SeenAfter(run))
  {
    RunIsFresh(d, run);
    WindowIsRecent(d.Marks(run));
  }

  /** One nonce is accepted twice only across a reboot or after at least 16 other acceptances. */
  lemma ReplayOnlyLate(d: Device, run: seq<Happening>, i: nat, j: nat)
    requires i < j < |run| && d.ShortNonces(run)
    requires d.AcceptedAt(run, i) && d.AcceptedAt(run, j) && d.NonceAt(run, i) == d.NonceAt(run, j)
    ensures (exists k | i < k < j :: run[k].Reboot?) || Acceptances(d.Marks(run)[i + 1..j]) >= NONCE_WINDOW
  {
    var marks := d.Marks(run);
    MarkAt(d, run, i);
    MarkAt(d, run, j);
    RunIsFresh(d, run);
    RepeatIsLate(marks, i, j);
    if Clear in marks[i + 1..j] {
      var k :| i + 1 <= k < j && marks[k] == Clear;
      MarkAt(d, run, k);
    }
  }

  /** And whatever happened in between, two acceptances of one token are at most 65 s apart. */
  lemma ReplayOnlySoon(d: Device, run: seq<Happening>, i: nat, j: nat)
    requires i < |run| && j < |run|
    requires d.AcceptedAt(run, i) && d.AcceptedAt(run, j) && run[i].token == run[j].token
    ensures -65 <= run[j].now - run[i].now <= 65
  {
    AcceptedInWindow(d, d.SeenAfter(run[..i]), run[i].token, run[i].now);
    AcceptedInWindow(d, d.SeenAfter(run[..j]), run[j].token, run[j].now);
  }

  /** The validity window written in a token's payload. */
  function WindowOf(d: Device, token: string): (r: (int, int)) {
    match OpenToken(d.lib, d.secret, token)
    case Closed(_) => (0, 0)
    case Opened(doc) => if doc.NullDocument? then (0, 0) else (IntOr(doc.issuedAt, -1), IntOr(doc.expiresAt, -1))
  }

  lemma AcceptedInWindow(d: Device, seen: seq<string>, token: string, now: int)
    requires d.Outcome(seen, token, now).Accepted?
    ensures var (issuedAt, expiresAt) := WindowOf(d, token);
      issuedAt - CLOCK_SKEW_S <= now <= expiresAt <= issuedAt + MAX_TTL_S
  {
  }

  /**
   * The replay check compares whole nonces with stored prefixes: presenting an accepted token again
   * at once is refused if and only if its nonce has at most 47 characters.
   */
  lemma ImmediateReplay(d: Device, seen: seq<string>, token: string, now: int)
    requires |seen| <= NONCE_WINDOW
    requires forall i | 0 <= i < |seen| :: |seen[i]| <= NONCE_STORED
    requires d.Outcome(seen, token, now).Accepted?
    ensures d.Outcome(Apply(seen, d.MarkOf(seen, Verify(token, now))), token, now) == Rejected(Replay)
       <==> |NonceOf(d.lib, d.secret, token)| <= NONCE_STORED
  {
    RememberedExactly(seen, NonceOf(d.lib, d.secret, token));
  }

  lemma RememberedExactly(seen: seq<string>, nonce: string)
    requires forall i | 0 <= i < |seen| :: |seen[i]| <= NONCE_STORED
    ensures nonce in Remember(seen, nonce) <==> |nonce| <= NONCE_STORED
  {
    var later := Remember(seen, nonce);
    assert later[|later| - 1] == Stored(nonce);
    forall i | 0 <= i < |later| ensures |later[i]| <= NONCE_STORED {}
  }

  /** The device's object: its nonce list is pushed, shifted and cleared in place. */
  class FirmwareModel {
    var seenNonces: seq<string>
    const device: Device

    constructor (device: Device)
      ensures this.device == device && seenNonces == []
    {
      this.device := device;
      seenNonces := [];
    }

    method Verify(token: string, now: int) returns (r: VerifyResult)
      modifies this`seenNonces
      ensures r == device.Outcome(old(seenNonces), token, now)
      ensures seenNonces == Apply(old(seenNonces), device.MarkOf(old(seenNonces), Happening.Verify(token, now)))
    {
      match OpenToken(device.lib, device.secret, token)
      case Closed(error) =>
        return Rejected(error);
      case Opened(doc) =>
        if doc.NullDocument? {
          return Thrown;
        }
        r := CheckDocument(doc, device.id, seenNonces, now);
        if r.Accepted? {
          seenNonces := seenNonces + [Stored(doc.nonce.value)];
          if |seenNonces| > NONCE_WINDOW {
            seenNonces := seenNonces[1..];
          }
        }
    }

    method Reboot()
      modifies this`seenNonces
      ensures seenNonces == Apply(old(seenNonces), device.MarkOf(old(seenNonces), Happening.Reboot))
    {
      seenNonces := [];
    }
  }
}
