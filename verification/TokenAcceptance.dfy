/**
 * Which tokens the device accepts, over all texts and not only over what the issuer makes: the checks
 * one by one, what each refusal says, and that acceptance needs the right signature.
 */
module TokenAcceptance {
  import opened Base64Url
  import opened PlatformToken

  /** The token in two parts around its first dot; without a dot both are empty. */
  predicate Cut(token: string, segment: string, sig: string) {
    if '.' in token then token == segment + "." + sig && '.' !in segment else segment == "" && sig == ""
  }

  lemma {:induction false} CutExists(token: string) returns (segment: string, sig: string)
    ensures Cut(token, segment, sig)
  {
    if token == "" {
      segment, sig := "", "";
    } else if token[0] == '.' {
      segment, sig := "", token[1..];
    } else {
      segment, sig := CutExists(token[1..]);
      assert token == [token[0]] + token[1..];
      if '.' in token[1..] {
        segment := [token[0]] + segment;
      }
    }
  }

  lemma {:induction false} NoDotIsFound(text: string)
    requires '.' !in text
    ensures IndexOfDot(text) == -1
  {
    if text != "" {
      NoDotIsFound(text[1..]);
    }
  }

  /** The bytes a text of at most 1024 characters stands for, if they are at most `most`. */
  predicate Reads(text: string, most: nat, bytes: seq<byte>) {
    1 <= |text| <= 1024 && FromBase64Url(text) == Ok(bytes) && |bytes| <= most
  }

  predicate IsReadable(text: string, most: nat) {
    FromBase64Url(text).Ok? && Reads(text, most, FromBase64Url(text).value)
  }

  function Parsed(lib: Library, segment: string): Option<Json> {
    if FromBase64Url(segment).Ok? then lib.parse(FromBase64Url(segment).value) else None
  }

  /** One verification: who verifies, what is remembered, the token's two parts and the clock. */
  datatype Case = Case(
    lib: Library, secret: Option<seq<byte>>, id: string, seen: seq<string>, token: string, segment: string, sig: string, now: int)
  {
    /** The token's document, if it has got that far. */
    predicate HasDocument() {
      Parsed(lib, segment).Some? && Parsed(lib, segment).value.Document?
    }

    function Doc(): Json
      requires HasDocument()
    {
      Parsed(lib, segment).value
    }

    /** The check that `e` reports is passed. */
    predicate Passes(e: VerifyError) {
      match e
      case SecretNotConfigured => secret.Some? && |secret.value| >= 16
      case TokenRequired => |token| > 0
      case MalformedToken => '.' in token && segment != "" && sig != ""
      case MalformedSignature => IsReadable(sig, 64) && |FromBase64Url(sig).value| == 32
      case InvalidSignature => secret.Some? && FromBase64Url(sig) == Ok(lib.hmac(secret.value, segment))
      case MalformedPayload => IsReadable(segment, 768)
      case NotJson => Parsed(lib, segment).Some?
      case WrongDevice => HasDocument() && Doc().deviceId == Some(id)
      case MissingCapability => HasDocument() && Doc().capability.Some? && Doc().capability.value != ""
      case TargetNotAllowed => HasDocument() && Doc().capability.Some? && Doc().capability.value in TARGETS
      case InvalidWindow =>
        && HasDocument() && Doc().issuedAt.Some? && Doc().expiresAt.Some?
        && 0 <= Doc().issuedAt.value < Doc().expiresAt.value <= Doc().issuedAt.value + 60
      case ClockNotSet => now >= 1704067200
      case ExpiredOrNotYetValid =>
        && HasDocument() && Doc().issuedAt.Some? && Doc().expiresAt.Some?
        && Doc().issuedAt.value <= now + 5 && now <= Doc().expiresAt.value
      case Replay => HasDocument() && Doc().nonce.Some? && Doc().nonce.value != "" && Doc().nonce.value !in seen
    }

    function Outcome(): VerifyResult {
      VerifyOutcome(lib, secret, id, seen, token, now)
    }
  }

  /** The order in which the device checks. */
  function Rank(e: VerifyError): nat {
    match e
    case SecretNotConfigured => 0
    case TokenRequired => 1
    case MalformedToken => 2
    case MalformedSignature => 3
    case InvalidSignature => 4
    case MalformedPayload => 5
    case NotJson => 6
    case WrongDevice => 7
    case MissingCapability => 8
    case TargetNotAllowed => 9
    case InvalidWindow => 10
    case ClockNotSet => 11
    case ExpiredOrNotYetValid => 12
    case Replay => 13
  }

  ghost predicate PassesBelow(c: Case, rank: nat) {
    forall e | Rank(e) < rank :: c.Passes(e)
  }

  /** The first seven checks, the ones on form and signature, one by one. */
  predicate OpensBelow(c: Case, rank: nat) {
    && (rank > 0 ==> c.Passes(SecretNotConfigured))
    && (rank > 1 ==> c.Passes(TokenRequired))
    && (rank > 2 ==> c.Passes(MalformedToken))
    && (rank > 3 ==> c.Passes(MalformedSignature))
    && (rank > 4 ==> c.Passes(InvalidSignature))
    && (rank > 5 ==> c.Passes(MalformedPayload))
    && (rank > 6 ==> c.Passes(NotJson))
  }

  lemma BelowSeven(c: Case, rank: nat)
    requires rank <= 7
    ensures PassesBelow(c, rank) <==> OpensBelow(c, rank)
  {
    if OpensBelow(c, rank) {
      forall e | Rank(e) < rank ensures c.Passes(e) {
        match e
        case SecretNotConfigured =>
        case TokenRequired =>
        case MalformedToken =>
        case MalformedSignature =>
        case InvalidSignature =>
        case MalformedPayload =>
        case NotJson =>
        case _ =>
      }
    }
  }

  lemma OpenedExactly(c: Case)
    requires Cut(c.token, c.segment, c.sig)
    ensures var r := OpenToken(c.lib, c.secret, c.token);
      && (r.Opened? <==> PassesBelow(c, 7))
      && (r.Opened? ==> Parsed(c.lib, c.segment) == Some(r.doc))
      && (r.Closed? ==> Rank(r.error) < 7 && !c.Passes(r.error) && PassesBelow(c, Rank(r.error)))
  {
    if '.' in c.token {
      TokenParts(c.segment, c.sig);
      OpenedWithDot(c, |c.segment|);
    } else {
      NoDotIsFound(c.token);
      OpenedWithoutDot(c);
    }
    FirstObstacleExactly(c);
    BelowSeven(c, 7);
    if OpenToken(c.lib, c.secret, c.token).Closed? {
      BelowSeven(c, Rank(OpenToken(c.lib, c.secret, c.token).error));
    }
  }

  /** The first of the seven checks that is not passed, or the document. */
  function FirstObstacle(c: Case): Opening {
    if !c.Passes(SecretNotConfigured) then Closed(SecretNotConfigured)
    else if !c.Passes(TokenRequired) then Closed(TokenRequired)
    else if !c.Passes(MalformedToken) then Closed(MalformedToken)
    else if !c.Passes(MalformedSignature) then Closed(MalformedSignature)
    else if !c.Passes(InvalidSignature) then Closed(InvalidSignature)
    else if !c.Passes(MalformedPayload) then Closed(MalformedPayload)
    else if !c.Passes(NotJson) then Closed(NotJson)
    else Opened(Parsed(c.lib, c.segment).value)
  }

  lemma FirstObstacleExactly(c: Case)
    ensures var r := FirstObstacle(c);
      && (r.Opened? <==> OpensBelow(c, 7))
      && (r.Opened? ==> Parsed(c.lib, c.segment) == Some(r.doc))
      && (r.Closed? ==> Rank(r.error) < 7 && !c.Passes(r.error) && OpensBelow(c, Rank(r.error)))
  {
  }

  lemma OpenedWithDot(c: Case, dot: nat)
    requires IndexOfDot(c.token) == dot == |c.segment| && |c.token| == dot + 1 + |c.sig|
    requires '.' in c.token && c.token[..dot] == c.segment && c.token[dot + 1..] == c.sig
    ensures OpenToken(c.lib, c.secret, c.token) == FirstObstacle(c)
  {
    if c.Passes(SecretNotConfigured) && c.Passes(MalformedToken) {
      PartsOpenExactly(c);
      assert OpenToken(c.lib, c.secret, c.token) == OpenParts(c.lib, c.secret.value, c.segment, c.sig);
    }
  }

  lemma PartsOpenExactly(c: Case)
    requires c.Passes(SecretNotConfigured) && c.Passes(TokenRequired) && c.Passes(MalformedToken)
    ensures OpenParts(c.lib, c.secret.value, c.segment, c.sig) == FirstObstacle(c)
  {
    DecodesExactly(c.sig, SIGNATURE_MAX);
    DecodesExactly(c.segment, PAYLOAD_MAX);
  }

  lemma OpenedWithoutDot(c: Case)
    requires IndexOfDot(c.token) == -1 && '.' !in c.token
    ensures OpenToken(c.lib, c.secret, c.token) == FirstObstacle(c)
  {
  }

  lemma DecodesExactly(text: string, most: nat)
    ensures Decode(text, most).Some? <==> IsReadable(text, most)
    ensures Decode(text, most).Some? ==> FromBase64Url(text) == Ok(Decode(text, most).value)
  {
  }

  lemma DocumentCheckedExactly(c: Case)
    requires c.HasDocument()
    ensures var r := CheckDocument(c.Doc(), c.id, c.seen, c.now);
      && !r.Thrown?
      && (r.Rejected? ==> 7 <= Rank(r.error) && !c.Passes(r.error) && forall e | 7 <= Rank(e) < Rank(r.error) :: c.Passes(e))
      && (r.Accepted? ==> forall e | 7 <= Rank(e) :: c.Passes(e))
      && (r.Accepted? ==> c.Doc().capability == Some(r.capability)
                          && r.input == if c.Doc().input.Some? then c.Doc().input.value else map[])
  {
  }

  lemma RankIsInjective(e: VerifyError, f: VerifyError)
    requires Rank(e) == Rank(f)
    ensures e == f
  {
  }

  /**
   * For every token: a refusal names the first check, in the device's order, that the token does not
   * pass. Only a token whose payload is the document `null`, rightly signed, makes the verifier throw.
   */
  lemma RefusalsExactly(c: Case, e: VerifyError)
    requires Cut(c.token, c.segment, c.sig)
    ensures c.Outcome().Thrown? <==> PassesBelow(c, 7) && Parsed(c.lib, c.segment) == Some(NullDocument)
    ensures c.Outcome() == Rejected(e) <==> !c.Passes(e) && PassesBelow(c, Rank(e)) && !c.Outcome().Thrown?
  {
    OpenedExactly(c);
    if PassesBelow(c, 7) && c.HasDocument() {
      DocumentCheckedExactly(c);
    }
    if c.Outcome().Rejected? {
      var f := c.Outcome().error;
      if Rank(f) == Rank(e) { RankIsInjective(e, f); }
    }
  }

  /** The token is a readable payload and its HMAC under the device's secret. */
  predicate IsSigned(c: Case) {
    && Cut(c.token, c.segment, c.sig) && '.' in c.token && c.segment != ""
    && c.secret.Some? && |c.secret.value| >= 16
    && |c.sig| <= 1024 && FromBase64Url(c.sig) == Ok(c.lib.hmac(c.secret.value, c.segment))
    && |c.lib.hmac(c.secret.value, c.segment)| == 32
    && IsReadable(c.segment, 768)
  }

  /** The payload asks this device, now and for the first time, for this call. */
  predicate Asks(c: Case, capability: string, input: Input) {
    && c.HasDocument() && c.Doc().deviceId == Some(c.id)
    && c.Doc().capability == Some(capability) && capability in TARGETS && capability != ""
    && input == (if c.Doc().input.Some? then c.Doc().input.value else map[])
    && c.Doc().issuedAt.Some? && c.Doc().expiresAt.Some?
    && 0 <= c.Doc().issuedAt.value < c.Doc().expiresAt.value <= c.Doc().issuedAt.value + 60
    && c.Doc().issuedAt.value - 5 <= c.now <= c.Doc().expiresAt.value && c.now >= 1704067200
    && c.Doc().nonce.Some? && c.Doc().nonce.value != "" && c.Doc().nonce.value !in c.seen
  }

  /**
   * For every token, issued or forged: the device accepts it and runs this call if and only if it is a
   * payload and its HMAC under the device's secret, the payload names the device, a listed capability, a
   * window of at most a minute around a clock that is set, and a nonce the device does not remember.
   */
  lemma AcceptedExactly(c: Case, capability: string, input: Input)
    requires Cut(c.token, c.segment, c.sig)
    ensures c.Outcome() == Accepted(capability, input) <==> IsSigned(c) && Asks(c, capability, input)
  {
    OpenedExactly(c);
    if PassesBelow(c, 7) && c.HasDocument() {
      DocumentCheckedExactly(c);
    }
    if IsSigned(c) && Asks(c, capability, input) {
      EmptySignature(c);
      assert forall e | Rank(e) < 7 :: c.Passes(e);
      assert forall e | 7 <= Rank(e) :: c.Passes(e);
    } else if c.Outcome() == Accepted(capability, input) {
      PassingMeansSigned(c);
      PassingMeansAsked(c);
    }
  }

  lemma PassingMeansSigned(c: Case)
    requires Cut(c.token, c.segment, c.sig) && forall e :: c.Passes(e)
    ensures IsSigned(c)
  {
    assert c.Passes(SecretNotConfigured) && c.Passes(MalformedToken) && c.Passes(MalformedSignature);
    assert c.Passes(InvalidSignature) && c.Passes(MalformedPayload);
  }

  lemma PassingMeansAsked(c: Case)
    requires forall e :: c.Passes(e)
    ensures c.HasDocument() && c.Doc().capability.Some?
    ensures Asks(c, c.Doc().capability.value, if c.Doc().input.Some? then c.Doc().input.value else map[])
  {
    assert c.Passes(WrongDevice) && c.Passes(MissingCapability) && c.Passes(TargetNotAllowed) && c.Passes(InvalidWindow);
    assert c.Passes(ClockNotSet) && c.Passes(ExpiredOrNotYetValid) && c.Passes(Replay);
  }

  lemma EmptySignature(c: Case)
    requires FromBase64Url(c.sig).Ok? && |FromBase64Url(c.sig).value| == 32
    ensures c.sig != ""
  {
  }

  /** A token whose second part does not decode to the HMAC of its first part is never accepted, whatever it says. */
  lemma ForgedIsRefused(lib: Library, secret: seq<byte>, id: string, seen: seq<string>, segment: string, sig: string, now: int)
    requires '.' !in segment && FromBase64Url(sig) != Ok(lib.hmac(secret, segment))
    ensures !VerifyOutcome(lib, Some(secret), id, seen, segment + "." + sig, now).Accepted?
  {
    var c := Case(lib, Some(secret), id, seen, segment + "." + sig, segment, sig, now);
    var r := c.Outcome();
    if r.Accepted? {
      AcceptedExactly(c, r.capability, r.input);
    }
  }
}
