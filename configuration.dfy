/**
 * QtGAConfiguration: the mutable settings record that QtGA uses to talk to the Google
 * Analytics backend. Each setter assigns its own field, some of them only after a check:
 * the tracking ID against the pattern UA-\d{4,10}-\d{1,4}, the client ID against
 * "non-null random (version 4) UUID", and the endpoint against "https in a build without SSL".
 */
module Configuration {
  import opened Wrappers
  import opened Text
  import opened UrlEncoding

  // ---- UUIDs (QUuid, in the octet order of RFC 4122) ----

  /** The sixteen octets of a UUID, most significant first (QUuid::toRfc4122). */
  type Uuid = s: seq<Byte> | |s| == 16 witness [0, 0, 0, 0, 0, 0, 0, 0, 0, 0, 0, 0, 0, 0, 0, 0]

  const NullUuid: Uuid := [0, 0, 0, 0, 0, 0, 0, 0, 0, 0, 0, 0, 0, 0, 0, 0]

  /** QUuid::isNull: every octet is zero. */
  predicate IsNull(u: Uuid) {
    forall i :: 0 <= i < 16 ==> u[i] == 0
  }

  /** QUuid::Variant, read from the top bits of octet 8 (the first octet of data4). */
  datatype Variant = VarUnknown | NCS | DCE | Microsoft | Reserved

  function VariantOf(u: Uuid): (v: Variant)
    ensures v == DCE <==> !IsNull(u) && u[8] / 64 == 2
  {
    if IsNull(u) then VarUnknown
    else if u[8] / 128 == 0 then NCS
    else if u[8] / 64 == 2 then DCE
    else if u[8] / 32 == 6 then Microsoft
    else Reserved
  }

  /** QUuid::Version values: VerUnknown is -1, Time 1, EmbeddedPOSIX 2, Md5 3, Random 4, Sha1 5. */
  const VerUnknown: int := -1
  const Random: int := 4

  /**
   * QUuid::version: the top four bits of data3 (octet 6), when the UUID is not null, is of
   * the DCE variant and carries a version Qt knows (1 to 5); VerUnknown otherwise.
   */
  function VersionOf(u: Uuid): (ver: int)
    ensures ver == VerUnknown || 1 <= ver <= 5
  {
    var ver := u[6] / 16;
    if IsNull(u) || VariantOf(u) != DCE || ver < 1 || ver > 5 then VerUnknown else ver
  }

  /** The UUIDs that setClientID accepts. */
  predicate AcceptedClientID(u: Uuid) {
    !IsNull(u) && VersionOf(u) == Random
  }

  /** A UUID is accepted exactly when it is a version 4, DCE-variant UUID (section 4.4 of RFC 4122). */
  lemma AcceptedClientIDIff(u: Uuid)
    ensures AcceptedClientID(u) <==> u[6] / 16 == 4 && u[8] / 64 == 2
  {
    if u[6] / 16 == 4 && u[8] / 64 == 2 {
      assert u[6] != 0;
    }
  }

  /** The null check of setClientID is implied by the version check. */
  lemma RandomIsNotNull(u: Uuid)
    requires VersionOf(u) == Random
    ensures !IsNull(u)
  {
  }

  lemma ClientIDExamples()
    ensures AcceptedClientID([0x12, 0x3e, 0x45, 0x67, 0xe8, 0x9b, 0x42, 0xd3, 0xa4, 0x56, 0x42, 0x66, 0x14, 0x17, 0x40, 0x00])
    ensures !AcceptedClientID(NullUuid)
    ensures !AcceptedClientID([0x12, 0x3e, 0x45, 0x67, 0xe8, 0x9b, 0x12, 0xd3, 0xa4, 0x56, 0x42, 0x66, 0x14, 0x17, 0x40, 0x00])
    ensures !AcceptedClientID([0x12, 0x3e, 0x45, 0x67, 0xe8, 0x9b, 0x42, 0xd3, 0xc4, 0x56, 0x42, 0x66, 0x14, 0x17, 0x40, 0x00])
  {
    AcceptedClientIDIff([0x12, 0x3e, 0x45, 0x67, 0xe8, 0x9b, 0x42, 0xd3, 0xa4, 0x56, 0x42, 0x66, 0x14, 0x17, 0x40, 0x00]);
    AcceptedClientIDIff([0x12, 0x3e, 0x45, 0x67, 0xe8, 0x9b, 0x12, 0xd3, 0xa4, 0x56, 0x42, 0x66, 0x14, 0x17, 0x40, 0x00]);
    AcceptedClientIDIff([0x12, 0x3e, 0x45, 0x67, 0xe8, 0x9b, 0x42, 0xd3, 0xc4, 0x56, 0x42, 0x66, 0x14, 0x17, 0x40, 0x00]);
  }

  // ---- tracking IDs ----

  /**
   * Exact match of \bUA-\d{4,10}-\d{1,4}\b (case-sensitive): "UA-", four to ten digits, '-',
   * one to four digits. The word boundaries hold at both ends of any such text.
   */
  predicate IsTrackingID(s: string) {
    |s| >= 3 && s[..3] == "UA-" &&
    exists j :: 3 <= j < |s| && s[j] == '-' && 4 <= j - 3 <= 10 && AllDigits(s[3..j]) &&
                1 <= |s| - j - 1 <= 4 && AllDigits(s[j + 1..])
  }

  /** A tracking ID is "UA-" with its two digit groups; the separating dash is the first after "UA-". */
  lemma TrackingIDParts(s: string, j: nat)
    requires IsTrackingID(s) && 3 <= j < |s| && s[j] == '-'
    ensures 7 <= j <= 13 && AllDigits(s[3..j]) && AllDigits(s[j + 1..])
    ensures 1 <= |s| - j - 1 <= 4
  {
  }

  lemma TrackingIDAccepts()
    ensures IsTrackingID("UA-987654321-1234") && IsTrackingID("UA-4321-0")
  {
    assert "UA-987654321-1234"[..3] == "UA-" && "UA-987654321-1234"[12] == '-';
    assert "UA-987654321-1234"[3..12] == "987654321" && "UA-987654321-1234"[13..] == "1234";
    assert "UA-4321-0"[..3] == "UA-" && "UA-4321-0"[7] == '-';
    assert "UA-4321-0"[3..7] == "4321" && "UA-4321-0"[8..] == "0";
  }

  lemma TrackingIDRejects()
    ensures !IsTrackingID("FOO-BAR-BAZ") && !IsTrackingID("ua-4321-0")
    ensures !IsTrackingID("UA-321-0") && !IsTrackingID("UA-4321-12345")
  {
    assert "FOO-BAR-BAZ"[..3] != "UA-" by { assert "FOO-BAR-BAZ"[0] != 'U'; }
    assert "ua-4321-0"[..3] != "UA-" by { assert "ua-4321-0"[0] != 'U'; }
  }

  // ---- endpoints ----

  /** SECURE_ENDPOINT: https://ssl.google-analytics.com/collect. */
  const SecureEndpoint: Url := Url("https", "//ssl.google-analytics.com/collect", None)

  /**
   * NORMAL_ENDPOINT, kept as the URL its literal "https//www.google-analytics.com/collect"
   * denotes: with no ':' there is no scheme, so the whole text is a relative path.
   */
  const NormalEndpoint: Url := Url("", "https//www.google-analytics.com/collect", None)

  /** The empty QUrl. */
  const EmptyUrl: Url := Url("", "", None)

  /** USERAGENT. */
  const DefaultUserAgent: string := "QtGA/1.0"

  datatype RequestType = PostRequest | GetRequest

  /** DefaultRequest is an alias of PostRequest. */
  const DefaultRequest: RequestType := PostRequest

  /** The endpoint that setEndpoint stores: an https URL is dropped when SSL is not available. */
  function StoredEndpoint(sslAvailable: bool, endpoint: Url): (r: Url)
    ensures sslAvailable ==> r == endpoint
    ensures !sslAvailable ==> r.scheme != "https"
    ensures !sslAvailable && endpoint.scheme != "https" ==> r == endpoint
  {
    if !sslAvailable && endpoint.scheme == "https" then EmptyUrl else endpoint
  }

  /** Storing the stored endpoint again changes nothing. */
  lemma StoredEndpointIdempotent(sslAvailable: bool, endpoint: Url)
    ensures StoredEndpoint(sslAvailable, StoredEndpoint(sslAvailable, endpoint)) == StoredEndpoint(sslAvailable, endpoint)
  {
  }

  /** A copy of a QtGAConfiguration, as QtGAHit keeps one by value. */
  datatype Settings = Settings(sslAvailable: bool, trackingID: string, endpoint: Url,
                               requestType: RequestType, userAgent: string, cacheBusting: bool,
                               anonymizeIP: bool, clientID: Uuid)

  class QtGAConfiguration {
    /** Whether Qt was built with SSL support (QT_NO_SSL undefined); fixed for a build. */
    const sslAvailable: bool

    var trackingID: string
    var endpoint: Url
    var requestType: RequestType
    var userAgent: string
    var cacheBusting: bool
    var anonymizeIP: bool
    var clientID: Uuid

    /**
     * What the setters keep true: the tracking ID is empty or well formed, the client ID
     * is null or a random UUID, and without SSL the endpoint is never https.
     */
    predicate Valid()
      reads this
    {
      (trackingID == "" || IsTrackingID(trackingID)) &&
      (IsNull(clientID) || AcceptedClientID(clientID)) &&
      (!sslAvailable ==> endpoint.scheme != "https")
    }

    /** The defaults; m_anonymizeIP is never initialised, so its first value is arbitrary. */
    constructor(sslAvailable: bool)
      ensures this.sslAvailable == sslAvailable
      ensures trackingID == "" && endpoint == NormalEndpoint && requestType == DefaultRequest
      ensures userAgent == DefaultUserAgent && !cacheBusting && clientID == NullUuid
      ensures Valid()
    {
      this.sslAvailable := sslAvailable;
      trackingID := "";
      endpoint := NormalEndpoint;
      requestType := DefaultRequest;
      userAgent := DefaultUserAgent;
      cacheBusting := false;
      anonymizeIP := *;
      clientID := NullUuid;
    }

    /** The object's current fields as a value (the copy constructor of QtGAConfiguration). */
    function Snapshot(): Settings
      reads this
    {
      Settings(sslAvailable, trackingID, endpoint, requestType, userAgent, cacheBusting, anonymizeIP, clientID)
    }

    /** Keeps a well-formed tracking ID, and clears the field for anything else. */
    method SetTrackingID(id: string)
      requires Valid()
      modifies this`trackingID
      ensures trackingID == (if IsTrackingID(id) then id else "")
      ensures Valid()
    {
      if IsTrackingID(id) {
        trackingID := id;
      } else {
        trackingID := "";
      }
    }

    function TrackingID(): (r: string)
      requires Valid()
      reads this
      ensures r == "" || IsTrackingID(r)
    {
      trackingID
    }

    /** isSecure: with the invariant, the endpoint is secure exactly when its scheme is https. */
    function IsSecure(): (r: bool)
      requires Valid()
      reads this
      ensures r <==> endpoint.scheme == "https"
      ensures r ==> sslAvailable
    {
      sslAvailable && endpoint.scheme == "https"
    }

    method SetEndpoint(e: Url)
      requires Valid()
      modifies this`endpoint
      ensures endpoint == StoredEndpoint(sslAvailable, e)
      ensures Valid()
    {
      if !sslAvailable && e.scheme == "https" {
        endpoint := EmptyUrl;
      } else {
        endpoint := e;
      }
    }

    function Endpoint(): (r: Url)
      requires Valid()
      reads this
      ensures !sslAvailable ==> r.scheme != "https"
    {
      endpoint
    }

    method SetIPAnonymization(anonymous: bool)
      modifies this`anonymizeIP
      ensures anonymizeIP == anonymous
    {
      anonymizeIP := anonymous;
    }

    function AnonymizeIP(): bool
      reads this
    {
      anonymizeIP
    }

    /** Unconditional, the empty text included. */
    method SetUserAgent(agent: string)
      modifies this`userAgent
      ensures userAgent == agent
    {
      userAgent := agent;
    }

    function UserAgent(): string
      reads this
    {
      userAgent
    }

    /** Stores a non-null random UUID; anything else keeps the previous client ID. */
    method SetClientID(id: Uuid)
      requires Valid()
      modifies this`clientID
      ensures clientID == (if AcceptedClientID(id) then id else old(clientID))
      ensures Valid()
    {
      if !IsNull(id) && VersionOf(id) == Random {
        clientID := id;
      }
    }

    function ClientID(): (r: Uuid)
      requires Valid()
      reads this
      ensures IsNull(r) || VersionOf(r) == Random
    {
      clientID
    }

    method SetCacheBusting(enabled: bool)
      modifies this`cacheBusting
      ensures cacheBusting == enabled
    {
      cacheBusting := enabled;
    }

    function CacheBusting(): bool
      reads this
    {
      cacheBusting
    }
  }
}
