/**
 * QtGoogleAnalytics::Tracker: validating setters, track for a parameter list (validate,
 * append v/tid/cid, submit) and for a ready query (build the POST or GET request and
 * submit it), and onFinished, which reports each submitted request once.
 *
 * Submitting is modelled as recording the request in `submitted`; the reply handle of a
 * request is its index there.
 */
module Tracking {
  import opened Wrappers
  import opened Text
  import opened UrlEncoding
  import opened Requests
  import HitValidation
  import Conf = Configuration
  import QtGAObjects

  type ObjectId = QtGAObjects.ObjectId

  const NormalEndpoint: Url := Url("http", "//www.google-analytics.com/collect", None)
  const SecureEndpoint: Url := Url("https", "//ssl.google-analytics.com/collect", None)
  const DefaultUserAgent: string := "QtGoogleAnalyticsTracker/1.0"
  const DefaultClientID: string := "QtGoogleAnalytics"
  const ProtocolVersion: string := "1"

  // ---- tracking IDs ----

  /** The two letters before the first dash, compared without regard to ASCII case. */
  predicate IsPropertyPrefix(a: char, b: char) {
    var x, y := ToLowerAscii(a), ToLowerAscii(b);
    (x == 'u' && y == 'a') || (x == 'y' && y == 't') || (x == 'm' && y == 'o')
  }

  /**
   * Exact, case-insensitive match of \b(UA|YT|MO)-\d+-\d+\b: one of the three prefixes, '-',
   * one or more digits, '-', one or more digits. The word boundaries hold at both ends.
   */
  predicate IsTrackerTrackingID(s: string) {
    |s| >= 3 && IsPropertyPrefix(s[0], s[1]) && s[2] == '-' &&
    exists j :: 3 < j < |s| - 1 && s[j] == '-' && AllDigits(s[3..j]) && AllDigits(s[j + 1..])
  }

  lemma TrackerTrackingIDAccepts()
    ensures IsTrackerTrackingID("UA-1234-5") && IsTrackerTrackingID("yt-1-2") && IsTrackerTrackingID("Mo-12-34")
  {
    assert "UA-1234-5"[7] == '-' && "UA-1234-5"[3..7] == "1234" && "UA-1234-5"[8..] == "5";
    assert "yt-1-2"[4] == '-' && "yt-1-2"[3..4] == "1" && "yt-1-2"[5..] == "2";
    assert "Mo-12-34"[5] == '-' && "Mo-12-34"[3..5] == "12" && "Mo-12-34"[6..] == "34";
  }

  lemma TrackerTrackingIDRejects()
    ensures !IsTrackerTrackingID("GA-1-2") && !IsTrackerTrackingID("UA-1-") && !IsTrackerTrackingID("UA--2")
    ensures !IsTrackerTrackingID("UA-1-2-3")
  {
    assert !IsPropertyPrefix('G', 'A');
    var t := "UA-1-2-3";
    forall j | 3 < j < |t| - 1 && t[j] == '-'
      ensures !(AllDigits(t[3..j]) && AllDigits(t[j + 1..]))
    {
      if j == 4 {
        assert t[j + 1..][1] == '-';
      } else {
        assert t[3..j][1] == '-';
      }
    }
  }

  /** Every tracking ID that QtGAConfiguration keeps is also one that the Tracker keeps. */
  lemma ConfigurationIDsAreTrackerIDs(s: string)
    requires Conf.IsTrackingID(s)
    ensures IsTrackerTrackingID(s)
  {
    assert s[..3] == "UA-";
    assert s[0] == 'U' && s[1] == 'A' && s[2] == '-';
    var j :| 3 <= j < |s| && s[j] == '-' && 4 <= j - 3 <= 10 && AllDigits(s[3..j]) &&
             1 <= |s| - j - 1 <= 4 && AllDigits(s[j + 1..]);
    assert 3 < j < |s| - 1;
  }

  /** The Tracker's pattern is looser: it takes lower case, other prefixes and any digit counts. */
  lemma TrackerIDsAreLooser()
    ensures IsTrackerTrackingID("yt-1-2") && !Conf.IsTrackingID("yt-1-2")
  {
    TrackerTrackingIDAccepts();
    assert "yt-1-2"[..3] != "UA-" by { assert "yt-1-2"[0] != 'U'; }
  }

  // ---- the items of a hit ----

  /** What track(ParameterList) submits: the caller's items in order, then v, tid and cid. */
  function HitItems(ps: HitValidation.ParameterList, trackingID: string, clientID: string): (r: seq<QueryItem>)
    ensures |r| == |ps| + 3 && r[..|ps|] == ps
  {
    ps + [("v", ProtocolVersion), ("tid", trackingID), ("cid", clientID)]
  }

  /** The tracker's own v, tid and cid come last, so they are the values that count. */
  lemma HitItemsEndWithTrackerValues(ps: HitValidation.ParameterList, trackingID: string, clientID: string)
    ensures HitValidation.LastValue(HitItems(ps, trackingID, clientID), "v") == Some(ProtocolVersion)
    ensures HitValidation.LastValue(HitItems(ps, trackingID, clientID), "tid") == Some(trackingID)
    ensures HitValidation.LastValue(HitItems(ps, trackingID, clientID), "cid") == Some(clientID)
  {
    var a := ps + [("v", ProtocolVersion)];
    var b := a + [("tid", trackingID)];
    assert HitItems(ps, trackingID, clientID) == b + [("cid", clientID)];
    HitValidation.LastValueSnoc(ps, ("v", ProtocolVersion), "v");
    HitValidation.LastValueSnoc(a, ("tid", trackingID), "v");
    HitValidation.LastValueSnoc(b, ("cid", clientID), "v");
    HitValidation.LastValueSnoc(a, ("tid", trackingID), "tid");
    HitValidation.LastValueSnoc(b, ("cid", clientID), "tid");
    HitValidation.LastValueSnoc(b, ("cid", clientID), "cid");
  }

  /** v, tid and cid are neither checked nor required, so appending them keeps the verdict. */
  lemma HitItemsKeepVerdict(ps: HitValidation.ParameterList, trackingID: string, clientID: string)
    ensures HitValidation.ValidHit(HitItems(ps, trackingID, clientID)) == HitValidation.ValidHit(ps)
  {
    var a := ps + [("v", ProtocolVersion)];
    var b := a + [("tid", trackingID)];
    var c := b + [("cid", clientID)];
    assert c == HitItems(ps, trackingID, clientID);
    AppendIgnored(ps, "v", ProtocolVersion);
    AppendIgnored(a, "tid", trackingID);
    AppendIgnored(b, "cid", clientID);
  }

  lemma AppendIgnored(ps: HitValidation.ParameterList, key: string, value: string)
    requires key == "v" || key == "tid" || key == "cid"
    ensures HitValidation.ValidHit(ps + [(key, value)]) == HitValidation.ValidHit(ps)
  {
    assert HitValidation.IgnoredKey(key);
    HitValidation.IgnoredKeyDoesNotMatter(ps, |ps|, key, value);
    assert ps[..|ps|] + [(key, value)] + ps[|ps|..] == ps + [(key, value)];
  }

  // ---- the network manager ----

  /** The manager in use, and whether the tracker is its parent (so deletes it on replacement). */
  datatype ManagerState = ManagerState(nam: ObjectId, owned: bool)

  /**
   * setNetworkAccessManager as written: a null manager changes nothing; otherwise an owned
   * manager is deleted and the given one is used. Result: the new state and the deleted manager.
   */
  function SetManagerAsWritten(s: ManagerState, manager: Option<ObjectId>, isChild: bool): (r: (ManagerState, Option<ObjectId>))
    ensures manager.None? ==> r == (s, None)
    ensures manager.Some? ==> r.0.nam == manager.value && r.0.owned == isChild
    ensures manager.Some? ==> (r.1.Some? <==> s.owned)
    ensures r.1.Some? ==> r.1 == Some(s.nam)
  {
    if manager.None? then (s, None)
    else (ManagerState(manager.value, isChild), if s.owned then Some(s.nam) else None)
  }

  /** Passing the tracker's own manager back deletes it and then keeps using it. */
  lemma AsWrittenUsesDeletedManager(s: ManagerState)
    requires s.owned
    ensures var r := SetManagerAsWritten(s, Some(s.nam), true); r.1 == Some(s.nam) && r.0.nam == s.nam
  {
  }

  /** setNetworkAccessManager with the current manager treated as no change. */
  function SetManager(s: ManagerState, manager: Option<ObjectId>, isChild: bool): (r: (ManagerState, Option<ObjectId>))
    ensures r.1.Some? ==> r.1.value != r.0.nam && r.1 == Some(s.nam) && s.owned
    ensures manager.Some? ==> r.0.nam == manager.value
    ensures manager.None? || manager.value == s.nam ==> r == (s, None)
  {
    if manager.None? || manager.value == s.nam then (s, None)
    else (ManagerState(manager.value, isChild), if s.owned then Some(s.nam) else None)
  }

  /** The correction differs from the code only when the current manager is passed in. */
  lemma SetManagerAgreesElsewhere(s: ManagerState, manager: Option<ObjectId>, isChild: bool)
    requires manager != Some(s.nam)
    ensures SetManager(s, manager, isChild) == SetManagerAsWritten(s, manager, isChild)
  {
  }

  // ---- reply handles ----

  /** Every handle below n is pending or finished, and none is both. */
  ghost predicate HandlesPartition(replies: set<nat>, finished: set<nat>, n: nat) {
    replies !! finished && forall h: nat :: h in replies || h in finished <==> h < n
  }

  /** A new request's handle n is fresh, and the partition extends to n + 1. */
  lemma SubmitKeepsPartition(replies: set<nat>, finished: set<nat>, n: nat)
    requires HandlesPartition(replies, finished, n)
    ensures n !in replies && n !in finished
    ensures HandlesPartition(replies + {n}, finished, n + 1)
  {
  }

  /** Finishing a pending handle moves it from pending to finished. */
  lemma FinishKeepsPartition(replies: set<nat>, finished: set<nat>, n: nat, reply: nat)
    requires HandlesPartition(replies, finished, n) && reply in replies
    ensures HandlesPartition(replies - {reply}, finished + {reply}, n)
  {
  }

  /**
   * The request-building part of track(QUrlQuery): the POST body or the GET URL with the
   * optional cache buster, and the size warning.
   */
  method PrepareRequest(op: Operation, endpoint: Url, userAgent: string, items: seq<QueryItem>,
                        cacheBusting: bool, rand: nat) returns (request: Request, warned: bool)
    requires IsSendOperation(op)
    ensures request == BuildRequest(op, endpoint, userAgent, items, cacheBusting, rand)
    ensures warned == Warns(request)
  {
    if op == PostOperation {
      var data := EncodeQuery(items);
      warned := |data| > PostLimit;
      request := Request(PostOperation, endpoint, userAgent, Some(FormContentType), Some(data));
    } else {
      var q := items;
      if cacheBusting {
        q := q + [("z", Number(rand % CacheBusterModulus))];
      }
      var url := WithQuery(endpoint, q);
      warned := |UrlText(url)| > GetLimit;
      request := Request(GetOperation, url, userAgent, None, None);
    }
  }

  // ---- the tracker ----

  class Tracker {
    var nam: ObjectId
    var ownsNam: bool
    var trackingID: string
    var userAgent: string
    var endpoint: Url
    var clientID: string
    var operation: Operation
    var cacheBusting: bool
    /** m_replies: handles of submitted requests whose reply has not finished. */
    var replies: set<nat>
    /** The requests handed to the network manager, in order; a reply handle is an index here. */
    var submitted: seq<Request>
    /** Handles whose reply has finished (and been reported by `tracked`). */
    ghost var finished: set<nat>

    /**
     * What the setters and track keep true: a send operation, a non-empty user agent and client
     * ID, an empty or well-formed tracking ID, and every submitted request either pending
     * or finished, never both.
     */
    ghost predicate Valid()
      reads this
    {
      IsSendOperation(operation) && userAgent != "" && clientID != "" &&
      (trackingID == "" || IsTrackerTrackingID(trackingID)) &&
      HandlesPartition(replies, finished, |submitted|)
    }

    /** The defaults; the tracker creates its own manager, `ownManager`, as its child. */
    constructor(ownManager: ObjectId)
      ensures nam == ownManager && ownsNam
      ensures trackingID == "" && userAgent == DefaultUserAgent && endpoint == NormalEndpoint
      ensures clientID == DefaultClientID && operation == PostOperation && !cacheBusting
      ensures replies == {} && submitted == [] && finished == {}
      ensures Valid()
    {
      nam := ownManager;
      ownsNam := true;
      trackingID := "";
      userAgent := DefaultUserAgent;
      endpoint := NormalEndpoint;
      clientID := DefaultClientID;
      operation := PostOperation;
      cacheBusting := false;
      replies := {};
      submitted := [];
      finished := {};
    }

    /** Returns the manager deleted by the call, if any. */
    method SetNetworkAccessManager(manager: Option<ObjectId>, isChild: bool) returns (deleted: Option<ObjectId>)
      modifies this`nam, this`ownsNam
      ensures (ManagerState(nam, ownsNam), deleted) == SetManager(ManagerState(old(nam), old(ownsNam)), manager, isChild)
    {
      deleted := None;
      if manager.None? || manager.value == nam {
        return;
      }
      if ownsNam {
        deleted := Some(nam);
      }
      nam := manager.value;
      ownsNam := isChild;
    }

    function NetworkAccessManager(): ObjectId
      reads this
    {
      nam
    }

    /** Clears the tracking ID, then keeps the input only when it matches the pattern. */
    method SetTrackingID(id: string)
      requires Valid()
      modifies this`trackingID
      ensures trackingID == (if IsTrackerTrackingID(id) then id else "")
      ensures Valid()
    {
      trackingID := "";
      if IsTrackerTrackingID(id) {
        trackingID := id;
      }
    }

    function TrackingID(): (r: string)
      requires Valid()
      reads this
      ensures r == "" || IsTrackerTrackingID(r)
    {
      trackingID
    }

    /** An empty user agent is ignored. */
    method SetUserAgent(agent: string)
      requires Valid()
      modifies this`userAgent
      ensures userAgent == (if agent == "" then old(userAgent) else agent)
      ensures Valid()
    {
      if agent != "" {
        userAgent := agent;
      }
    }

    function UserAgent(): (r: string)
      requires Valid()
      reads this
      ensures r != ""
    {
      userAgent
    }

    /** An invalid URL (QUrl::isValid false, passed as `isValid`) is ignored. */
    method SetEndpoint(e: Url, isValid: bool)
      modifies this`endpoint
      ensures endpoint == (if isValid then e else old(endpoint))
    {
      if isValid {
        endpoint := e;
      }
    }

    function Endpoint(): Url
      reads this
    {
      endpoint
    }

    /** An empty client ID is ignored; any other text is taken. */
    method SetClientID(id: string)
      requires Valid()
      modifies this`clientID
      ensures clientID == (if id == "" then old(clientID) else id)
      ensures Valid()
    {
      if id != "" {
        clientID := id;
      }
    }

    function ClientID(): (r: string)
      requires Valid()
      reads this
      ensures r != ""
    {
      clientID
    }

    /** Only POST and GET are taken; any other operation is ignored. */
    method SetOperation(op: Operation)
      requires Valid()
      modifies this`operation
      ensures operation == (if IsSendOperation(op) then op else old(operation))
      ensures Valid()
    {
      match op
      case PostOperation => operation := op;
      case GetOperation => operation := op;
      case _ => return;
    }

    /** operation(). */
    function CurrentOperation(): (r: Operation)
      requires Valid()
      reads this
      ensures IsSendOperation(r)
    {
      operation
    }

    method SetCacheBusting(enabled: bool)
      modifies this`cacheBusting
      ensures cacheBusting == enabled
    {
      cacheBusting := enabled;
    }

    function CacheBusting(): bool
      reads this
    {
      cacheBusting
    }

    /**
     * track(QUrlQuery): builds the request for the current operation, submits it and adds its
     * reply to the pending set. `rand` stands for qrand(); the result is the size warning.
     */
    method TrackQuery(items: seq<QueryItem>, rand: nat) returns (warned: bool)
      requires Valid()
      modifies this`submitted, this`replies
      ensures Valid()
      ensures submitted == old(submitted) + [BuildRequest(operation, endpoint, userAgent, items, cacheBusting, rand)]
      ensures replies == old(replies) + {|old(submitted)|}
      ensures warned == Warns(submitted[|old(submitted)|])
    {
      var request;
      request, warned := PrepareRequest(operation, endpoint, userAgent, items, cacheBusting, rand);
      var n := |submitted|;
      SubmitKeepsPartition(replies, finished, n);
      replies := replies + {n};
      submitted := submitted + [request];
    }

    /**
     * track(ParameterList): an invalid hit is dropped; a valid one is submitted with v, tid
     * and cid appended. `sent` tells which happened.
     */
    method TrackParameters(ps: HitValidation.ParameterList, rand: nat) returns (sent: bool, warned: bool)
      requires Valid()
      modifies this`submitted, this`replies
      ensures Valid()
      ensures sent == HitValidation.ValidHit(ps)
      ensures !sent ==> submitted == old(submitted) && replies == old(replies) && !warned
      ensures sent ==>
                submitted == old(submitted) + [BuildRequest(operation, endpoint, userAgent,
                                                            HitItems(ps, trackingID, clientID), cacheBusting, rand)]
      ensures sent ==> replies == old(replies) + {|old(submitted)|}
      ensures sent ==> warned == Warns(submitted[|old(submitted)|])
    {
      sent := HitValidation.IsValidHit(ps);
      if !sent {
        return sent, false;
      }
      var items := ps + [("v", ProtocolVersion), ("tid", trackingID), ("cid", clientID)];
      warned := TrackQuery(items, rand);
    }

    /**
     * onFinished: a pending reply is removed and reported by `tracked` (`emitted`); its error,
     * if any, is warned about. An unknown or already finished reply changes nothing.
     */
    method OnFinished(reply: nat, replyError: bool) returns (emitted: bool, warned: bool)
      requires Valid()
      modifies this`replies, this`finished
      ensures Valid()
      ensures emitted == (reply in old(replies))
      ensures emitted ==> replies == old(replies) - {reply} && finished == old(finished) + {reply}
      ensures !emitted ==> replies == old(replies) && finished == old(finished)
      ensures warned == (emitted && replyError)
      ensures old(reply in finished) ==> !emitted
      ensures reply !in replies
    {
      if reply !in replies {
        return false, false;
      }
      warned := replyError;
      FinishKeepsPartition(replies, finished, |submitted|, reply);
      replies := replies - {reply};
      finished := finished + {reply};
      emitted := true;
    }
  }
}
