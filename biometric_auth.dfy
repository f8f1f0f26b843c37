/**
 * The biometric re-authentication helper (src/lib/biometric-auth.ts): one
 * localStorage slot for the registered credential, the messages platform
 * errors turn into, the device label read off the user agent, and the
 * conversions between a byte buffer and base64 text.
 *
 * The platform (WebAuthn, the random challenge, the clock, the user agent)
 * enters as parameters describing what it answered.
 */
module BiometricAuth {
  import opened Wrappers
  import opened Text

  newtype byte = x: int | 0 <= x < 256

  datatype BiometricCredential = BiometricCredential(id: string, publicKey: string, deviceName: string, createdAt: int)

  /** What the slot under `recipe-box-webauthn-credentials` can hold. */
  datatype StoredCredential =
    | CredentialJson(credential: BiometricCredential)  // text JSON.parse turns into a credential
    | NotACredential                                    // empty text, the JSON `null`, or text JSON.parse rejects

  datatype Result<T> = Success(value: T) | Failure(message: string)

  const NotSupportedMessage := "Biometric authentication is not supported on this device"
  const RegistrationCancelledMessage := "Biometric registration was cancelled"
  const RegistrationFailedMessage := "Failed to register biometric authentication"
  const NoCredentialMessage := "No biometric credential found. Please set up biometric authentication first."
  const AuthenticationCancelledMessage := "Biometric authentication was cancelled"
  const AuthenticationFailedMessage := "Biometric authentication failed"

  /** The name the platform gives a dismissed or refused prompt. */
  const NotAllowedError := "NotAllowedError"

  /** The browser capabilities `isBiometricSupported` probes. */
  datatype Platform = Platform(hasWindow: bool, hasPublicKeyCredential: bool, hasCredentialsApi: bool)

  /** `isBiometricSupported`: a window, `PublicKeyCredential` and `navigator.credentials` are all there. */
  predicate IsBiometricSupported(p: Platform) {
    p.hasWindow && p.hasPublicKeyCredential && p.hasCredentialsApi
  }

  /**
   * `isPlatformAuthenticatorAvailable`: `probe` is what the platform's own
   * check resolved to, None if it threw.
   */
  function IsPlatformAuthenticatorAvailable(p: Platform, probe: Option<bool>): (r: bool)
    ensures !IsBiometricSupported(p) ==> !r
    ensures r <==> IsBiometricSupported(p) && probe == Some(true)
  {
    if !IsBiometricSupported(p) then false
    else match probe
      case Some(available) => available
      case None => false
  }

  /** The message `registerBiometric` throws for an error raised inside its `try`. */
  function RegistrationErrorMessage(errorName: string): (m: string)
    ensures m == RegistrationCancelledMessage <==> errorName == NotAllowedError
    ensures m == RegistrationFailedMessage <==> errorName != NotAllowedError
  {
    if errorName == NotAllowedError then RegistrationCancelledMessage else RegistrationFailedMessage
  }

  /** The message `authenticateWithBiometric` throws for an error raised inside its `try`. */
  function AuthenticationErrorMessage(errorName: string): (m: string)
    ensures m == AuthenticationCancelledMessage <==> errorName == NotAllowedError
    ensures m == AuthenticationFailedMessage <==> errorName != NotAllowedError
  {
    if errorName == NotAllowedError then AuthenticationCancelledMessage else AuthenticationFailedMessage
  }

  /** `getDeviceName`: the first of iPhone, iPad, Android, Mac, Windows the user agent mentions. */
  function GetDeviceName(userAgent: string): (name: string)
    ensures name == "iPhone" <==> Contains(userAgent, "iPhone")
    ensures name == "iPad" <==> !Contains(userAgent, "iPhone") && Contains(userAgent, "iPad")
    ensures name == "Android Device" <==>
      !Contains(userAgent, "iPhone") && !Contains(userAgent, "iPad") && Contains(userAgent, "Android")
    ensures name == "Mac" <==>
      !Contains(userAgent, "iPhone") && !Contains(userAgent, "iPad") && !Contains(userAgent, "Android")
      && Contains(userAgent, "Mac")
    ensures name == "Windows PC" <==>
      !Contains(userAgent, "iPhone") && !Contains(userAgent, "iPad") && !Contains(userAgent, "Android")
      && !Contains(userAgent, "Mac") && Contains(userAgent, "Windows")
    ensures name == "This Device" <==>
      !Contains(userAgent, "iPhone") && !Contains(userAgent, "iPad") && !Contains(userAgent, "Android")
      && !Contains(userAgent, "Mac") && !Contains(userAgent, "Windows")
  {
    if Contains(userAgent, "iPhone") then "iPhone"
    else if Contains(userAgent, "iPad") then "iPad"
    else if Contains(userAgent, "Android") then "Android Device"
    else if Contains(userAgent, "Mac") then "Mac"
    else if Contains(userAgent, "Windows") then "Windows PC"
    else "This Device"
  }

  // ---------------------------------------------------------------------------
  // Byte buffers, binary strings and base64

  /** A "binary string": every character code fits in a byte. */
  predicate IsBinary(s: string) {
    forall i :: 0 <= i < |s| ==> s[i] as int < 256
  }

  /** `String.fromCharCode` applied to each byte, concatenated. */
  function BinaryOf(bytes: seq<byte>): (s: string)
    ensures |s| == |bytes| && IsBinary(s)
  {
    seq(|bytes|, i requires 0 <= i < |bytes| => (bytes[i] as int) as char)
  }

  /** Each `charCodeAt` stored into a `Uint8Array`, which keeps the low eight bits. */
  function BytesOf(s: string): (bytes: seq<byte>)
    ensures |bytes| == |s|
  {
    seq(|s|, i requires 0 <= i < |s| => ((s[i] as int) % 256) as byte)
  }

  lemma BytesOfBinaryOf(bytes: seq<byte>)
    ensures BytesOf(BinaryOf(bytes)) == bytes
  {
    var s := BinaryOf(bytes);
    forall i | 0 <= i < |bytes| ensures BytesOf(s)[i] == bytes[i] {
      assert s[i] as int == bytes[i] as int;
    }
  }

  lemma BinaryOfBytesOf(s: string)
    requires IsBinary(s)
    ensures BinaryOf(BytesOf(s)) == s
  {
    var bytes := BytesOf(s);
    forall i | 0 <= i < |s| ensures BinaryOf(bytes)[i] == s[i] {
      assert bytes[i] as int == s[i] as int;
    }
  }

  /**
   * The browser's `btoa`/`atob` pair (section 4 of RFC 4648), which the model
   * does not re-implement. `decode` answers None where `atob` throws.
   */
  datatype Base64 = Base64(encode: string -> string, decode: string -> Option<string>)

  /** What the model relies on of `btoa`/`atob`: decoding what was encoded gives the binary string back. */
  ghost predicate SoundBase64(codec: Base64) {
    forall s :: IsBinary(s) ==> codec.decode(codec.encode(s)) == Some(s)
  }

  /** What `arrayBufferToBase64` returns. */
  function EncodeBuffer(codec: Base64, bytes: seq<byte>): string {
    codec.encode(BinaryOf(bytes))
  }

  /** What `base64ToArrayBuffer` returns, None where `atob` throws. */
  function DecodeBuffer(codec: Base64, text: string): Option<seq<byte>> {
    match codec.decode(text)
    case Some(binary) => Some(BytesOf(binary))
    case None => None
  }

  /** Decoding an encoded buffer gives the buffer back. */
  lemma BufferRoundTrip(codec: Base64, bytes: seq<byte>)
    requires SoundBase64(codec)
    ensures DecodeBuffer(codec, EncodeBuffer(codec, bytes)) == Some(bytes)
  {
    BytesOfBinaryOf(bytes);
  }

  /** `arrayBufferToBase64`: one character per byte, then `btoa`. */
  method ArrayBufferToBase64(codec: Base64, buffer: array<byte>) returns (text: string)
    ensures text == EncodeBuffer(codec, buffer[..])
  {
    var binary := "";
    for i := 0 to buffer.Length
      invariant binary == BinaryOf(buffer[..i])
    {
      binary := binary + [(buffer[i] as int) as char];
    }
    assert buffer[..buffer.Length] == buffer[..];
    text := codec.encode(binary);
  }

  /** `base64ToArrayBuffer`: `atob`, then one byte per character. */
  method Base64ToArrayBuffer(codec: Base64, text: string) returns (buffer: Option<seq<byte>>)
    ensures buffer == DecodeBuffer(codec, text)
  {
    var decoded := codec.decode(text);
    if decoded.None? {
      return None;
    }
    var binary := decoded.value;
    var bytes := new byte[|binary|];
    for i := 0 to |binary|
      invariant forall k :: 0 <= k < i ==> bytes[k] == ((binary[k] as int) % 256) as byte
    {
      bytes[i] := ((binary[i] as int) % 256) as byte;
    }
    assert bytes[..] == BytesOf(binary);
    buffer := Some(bytes[..]);
  }

  /** The two conversions, run one after the other, give back the buffer. */
  method EncodeThenDecode(codec: Base64, buffer: array<byte>) returns (back: Option<seq<byte>>)
    requires SoundBase64(codec)
    ensures back == Some(buffer[..])
  {
    var text := ArrayBufferToBase64(codec, buffer);
    back := Base64ToArrayBuffer(codec, text);
    BufferRoundTrip(codec, buffer[..]);
  }

  // ---------------------------------------------------------------------------
  // The credential slot and the two platform flows

  /** What `navigator.credentials.create` did. */
  datatype CreationOutcome =
    | Created(credentialId: string, rawId: seq<byte>)
    | NothingCreated          // resolved to null
    | CreationError(name: string)

  /** What `navigator.credentials.get` did. */
  datatype AssertionOutcome =
    | Asserted
    | NothingAsserted         // resolved to null
    | AssertionError(name: string)

  /** The name of the error `atob` throws on text that is not base64. */
  const InvalidCharacterError := "InvalidCharacterError"

  /**
   * The localStorage slot `recipe-box-webauthn-credentials`. `inBrowser` is
   * false when running on the server, where reads find nothing and writes do
   * nothing.
   */
  class CredentialSlot {
    const inBrowser: bool
    var stored: Option<StoredCredential>

    constructor (inBrowser: bool, stored: Option<StoredCredential>)
      ensures this.inBrowser == inBrowser && this.stored == stored
    {
      this.inBrowser := inBrowser;
      this.stored := stored;
    }

    /** The slot holds text that parses to a credential. */
    predicate HoldsCredential()
      reads this
    {
      inBrowser && stored.Some? && stored.value.CredentialJson?
    }

    /** `getBiometricCredential`: the parsed credential, or nothing. */
    method GetBiometricCredential() returns (c: Option<BiometricCredential>)
      ensures c.Some? <==> HoldsCredential()
      ensures c.Some? ==> c.value == stored.value.credential
    {
      if !inBrowser {
        return None;
      }
      match stored {
        case Some(CredentialJson(credential)) => c := Some(credential);
        case _ => c := None;
      }
    }

    /** `hasBiometricCredential`. */
    method HasBiometricCredential() returns (b: bool)
      ensures b <==> HoldsCredential()
    {
      var c := GetBiometricCredential();
      b := c.Some?;
    }

    /**
     * `saveBiometricCredential`: overwrite the slot; `writeFails` is whether
     * `setItem` throws (logged, slot unchanged).
     */
    method SaveBiometricCredential(credential: BiometricCredential, writeFails: bool)
      modifies this
      ensures stored == if inBrowser && !writeFails then Some(CredentialJson(credential)) else old(stored)
    {
      if inBrowser && !writeFails {
        stored := Some(CredentialJson(credential));
      }
    }

    /**
     * `removeBiometricCredential`: empty the slot. `removeFails` is whether
     * `removeItem` throws (logged, slot unchanged).
     */
    method RemoveBiometricCredential(removeFails: bool)
      modifies this
      ensures stored == if inBrowser && !removeFails then None else old(stored)
      ensures !removeFails ==> !HoldsCredential()
    {
      if inBrowser && !removeFails {
        stored := None;
      }
    }
  }

  /**
   * `registerBiometric`: create a platform credential and store its
   * descriptor. `creation` is what the platform did, `userAgent` and `now`
   * what the browser reported; `writeFails` is whether storing the descriptor
   * throws (that error is swallowed by the store helper).
   */
  method RegisterBiometric(
    slot: CredentialSlot, platform: Platform, codec: Base64,
    creation: CreationOutcome, userAgent: string, now: int, writeFails: bool)
    returns (r: Result<BiometricCredential>)
    modifies slot
    ensures !IsBiometricSupported(platform) ==> r == Failure(NotSupportedMessage) && slot.stored == old(slot.stored)
    ensures IsBiometricSupported(platform) && creation.Created? ==>
      var credential := BiometricCredential(
        creation.credentialId, EncodeBuffer(codec, creation.rawId), GetDeviceName(userAgent), now);
      && r == Success(credential)
      && slot.stored == if slot.inBrowser && !writeFails then Some(CredentialJson(credential)) else old(slot.stored)
    ensures IsBiometricSupported(platform) && creation.NothingCreated? ==>
      r == Failure(RegistrationFailedMessage) && slot.stored == old(slot.stored)
    ensures IsBiometricSupported(platform) && creation.CreationError? ==>
      r == Failure(RegistrationErrorMessage(creation.name)) && slot.stored == old(slot.stored)
  {
    if !IsBiometricSupported(platform) {
      return Failure(NotSupportedMessage);
    }
    match creation {
      case Created(credentialId, rawId) =>
        var raw := new byte[|rawId|];
        forall k | 0 <= k < |rawId| { raw[k] := rawId[k]; }
        assert raw[..] == rawId;
        var publicKey := ArrayBufferToBase64(codec, raw);
        var credential := BiometricCredential(credentialId, publicKey, GetDeviceName(userAgent), now);
        slot.SaveBiometricCredential(credential, writeFails);
        r := Success(credential);
      case NothingCreated =>
        // `throw new Error('Failed to create credential')`, caught by the same handler
        r := Failure(RegistrationErrorMessage("Error"));
      case CreationError(name) =>
        r := Failure(RegistrationErrorMessage(name));
    }
  }

  /**
   * `authenticateWithBiometric`: ask the platform for an assertion against the
   * stored credential. The assertion is not checked anywhere; resolving to a
   * non-null value counts as success.
   */
  method AuthenticateWithBiometric(
    slot: CredentialSlot, platform: Platform, codec: Base64, assertion: AssertionOutcome)
    returns (r: Result<bool>)
    ensures !IsBiometricSupported(platform) ==> r == Failure(NotSupportedMessage)
    ensures IsBiometricSupported(platform) && !slot.HoldsCredential() ==> r == Failure(NoCredentialMessage)
    ensures IsBiometricSupported(platform) && slot.HoldsCredential() ==>
      r == if DecodeBuffer(codec, slot.stored.value.credential.publicKey).None? then Failure(AuthenticationFailedMessage)
           else match assertion
             case Asserted => Success(true)
             case NothingAsserted => Failure(AuthenticationFailedMessage)
             case AssertionError(name) => Failure(AuthenticationErrorMessage(name))
  {
    if !IsBiometricSupported(platform) {
      return Failure(NotSupportedMessage);
    }
    var credential := slot.GetBiometricCredential();
    if credential.None? {
      return Failure(NoCredentialMessage);
    }
    var allowed := Base64ToArrayBuffer(codec, credential.value.publicKey);
    if allowed.None? {
      return Failure(AuthenticationErrorMessage(InvalidCharacterError));
    }
    match assertion {
      case Asserted => r := Success(true);
      case NothingAsserted =>
        // `throw new Error('Authentication failed')`, caught by the same handler
        r := Failure(AuthenticationErrorMessage("Error"));
      case AssertionError(name) => r := Failure(AuthenticationErrorMessage(name));
    }
  }

  /**
   * A registration that stores its descriptor is followed by a successful
   * authentication: the stored public key decodes again, so the only remaining
   * outcome is the platform's assertion.
   */
  method RegisterThenAuthenticate(
    slot: CredentialSlot, platform: Platform, codec: Base64,
    credentialId: string, rawId: seq<byte>, userAgent: string, now: int)
    returns (registered: Result<BiometricCredential>, has: bool, authenticated: Result<bool>)
    requires SoundBase64(codec) && IsBiometricSupported(platform) && slot.inBrowser
    modifies slot
    ensures registered.Success? && registered.value.id == credentialId
    ensures has
    ensures authenticated == Success(true)
  {
    registered := RegisterBiometric(slot, platform, codec, Created(credentialId, rawId), userAgent, now, false);
    has := slot.HasBiometricCredential();
    BufferRoundTrip(codec, rawId);
    authenticated := AuthenticateWithBiometric(slot, platform, codec, Asserted);
  }
}
