/**
 * s_parameterInfo: the constant table that describes every hit parameter of the measurement
 * protocol. One row per QtGAHit::Parameter from ProtocolVersion to CustomMetric, giving the wire
 * key, the value type, the maximum length (-1 for unbounded), the hit types the parameter is
 * allowed in, and whether it is required. The custom dimension and metric rows carry the
 * pattern of their keys (cd<n>, cm<n>) rather than a key.
 */
module ParameterCatalog {
  import opened Text
  import opened QtGATypes

  datatype ParameterInfo = ParameterInfo(
    parameter: Parameter,
    textualRepresentation: string,
    valueType: ValueType,
    maxLength: int,
    supportedTypes: Types,
    required: bool)

  const RowCount: nat := 65

  /*
   * The table is written as four blocks of rows, grouped by the sections of the Parameter
   * enumeration, and Row picks the block.
   */

  /** Rows 0 to 15: the general, visitor, session and traffic-source parameters. */
  function GeneralRows(i: nat): (r: ParameterInfo)
    requires 0 <= i < 16
    ensures r.parameter as int == i
  {
    match i
    case 0 => ParameterInfo(ProtocolVersion, "v", Text, -1, AllTypes, true)
    case 1 => ParameterInfo(TrackingID, "tid", Text, -1, AllTypes, true)
    case 2 => ParameterInfo(AnonymizeIP, "aip", Boolean, -1, AllTypes, false)
    case 3 => ParameterInfo(QueueTime, "qt", Integer, -1, AllTypes, false)
    case 4 => ParameterInfo(CacheBuster, "z", Boolean, -1, AllTypes, false)
    case 5 => ParameterInfo(ClientID, "cid", Text, -1, AllTypes, true)
    case 6 => ParameterInfo(SessionControl, "sc", Text, -1, AllTypes, false)
    case 7 => ParameterInfo(DocumentReferrer, "dr", Text, 2048, AllTypes, false)
    case 8 => ParameterInfo(CampaignName, "cn", Text, 100, AllTypes, false)
    case 9 => ParameterInfo(CampaignSource, "cs", Text, 100, AllTypes, false)
    case 10 => ParameterInfo(CampaignMedium, "cm", Text, 50, AllTypes, false)
    case 11 => ParameterInfo(CampaignKeyword, "ck", Text, 500, AllTypes, false)
    case 12 => ParameterInfo(CampaignContent, "cc", Text, 500, AllTypes, false)
    case 13 => ParameterInfo(CampaignID, "ci", Text, 100, AllTypes, false)
    case 14 => ParameterInfo(GoogleAdWordsID, "gclid", Text, -1, AllTypes, false)
    case _ => ParameterInfo(GoogleDisplayAdsID, "dclid", Text, -1, AllTypes, false)
  }

  /** Rows 16 to 32: the system-info, hit, content and app parameters. */
  function ContentRows(i: nat): (r: ParameterInfo)
    requires 16 <= i < 33
    ensures r.parameter as int == i
  {
    match i
    case 16 => ParameterInfo(ScreenResolution, "sr", Text, 20, AllTypes, false)
    case 17 => ParameterInfo(ViewportSize, "vp", Text, 20, AllTypes, false)
    case 18 => ParameterInfo(DocumentEncoding, "de", Text, 20, AllTypes, false)
    case 19 => ParameterInfo(ScreenColors, "sd", Text, 20, AllTypes, false)
    case 20 => ParameterInfo(UserLanguage, "ul", Text, 20, AllTypes, false)
    case 21 => ParameterInfo(JavaEnabled, "je", Boolean, -1, AllTypes, false)
    case 22 => ParameterInfo(FlashVersion, "fl", Text, 20, AllTypes, false)
    case 23 => ParameterInfo(HitType, "t", Text, -1, AllTypes, true)
    case 24 => ParameterInfo(NonInteractionHit, "ni", Boolean, -1, AllTypes, false)
    case 25 => ParameterInfo(DocumentLocationUrl, "dl", Text, 2048, AllTypes, false)
    case 26 => ParameterInfo(DocumentHostName, "dh", Text, 100, AllTypes, false)
    case 27 => ParameterInfo(DocumentPath, "dp", Text, 2048, AllTypes, false)
    case 28 => ParameterInfo(DocumentTitle, "dt", Text, 1500, AllTypes, false)
    case 29 => ParameterInfo(ContentDescription, "cd", Text, 2048, AllTypes, false)
    case 30 => ParameterInfo(LinkID, "linkid", Text, -1, AllTypes, false)
    case 31 => ParameterInfo(ApplicationName, "an", Text, 100, AllTypes, false)
    case _ => ParameterInfo(ApplicationVersion, "av", Text, 100, AllTypes, false)
  }

  /** Rows 33 to 50: the event, e-commerce and social parameters. */
  function InteractionRows(i: nat): (r: ParameterInfo)
    requires 33 <= i < 51
    ensures r.parameter as int == i
  {
    match i
    case 33 => ParameterInfo(EventCategory, "ec", Text, 150, Flag(Event), false)
    case 34 => ParameterInfo(EventAction, "ea", Text, 500, Flag(Event), false)
    case 35 => ParameterInfo(EventLabel, "el", Text, 500, Flag(Event), false)
    case 36 => ParameterInfo(EventValue, "ev", Integer, -1, Flag(Event), false)
    case 37 => ParameterInfo(TransactionID, "ti", Text, 500, Flag(Transaction) | Flag(Item), true)
    case 38 => ParameterInfo(TransactionAffiliation, "ta", Text, 500, Flag(Transaction), false)
    case 39 => ParameterInfo(TransactionRevenue, "tr", Currency, -1, Flag(Transaction), false)
    case 40 => ParameterInfo(TransactionShipping, "ts", Currency, -1, Flag(Transaction), false)
    case 41 => ParameterInfo(TransactionTax, "tt", Currency, -1, Flag(Transaction), false)
    case 42 => ParameterInfo(ItemName, "in", Text, 500, Flag(Item), true)
    case 43 => ParameterInfo(ItemPrice, "ip", Currency, -1, Flag(Item), false)
    case 44 => ParameterInfo(ItemQuantity, "iq", Integer, -1, Flag(Item), false)
    case 45 => ParameterInfo(ItemCode, "ic", Text, 500, Flag(Item), false)
    case 46 => ParameterInfo(ItemCategory, "iv", Text, 500, Flag(Item), false)
    case 47 => ParameterInfo(CurrencyCode, "cu", Text, 10, Flag(Item), false)
    case 48 => ParameterInfo(SocialNetwork, "sn", Text, 50, Flag(Social), true)
    case 49 => ParameterInfo(SocialAction, "sa", Text, 50, Flag(Social), true)
    case _ => ParameterInfo(SocialActionTarget, "st", Text, 2048, Flag(Social), true)
  }

  /** Rows 51 to 64: the timing, exception and custom parameters. */
  function TimingRows(i: nat): (r: ParameterInfo)
    requires 51 <= i < 65
    ensures r.parameter as int == i
  {
    match i
    case 51 => ParameterInfo(UserTimingCategory, "utc", Text, 150, Flag(Timing), false)
    case 52 => ParameterInfo(UserTimingVariableName, "utv", Text, 500, Flag(Timing), false)
    case 53 => ParameterInfo(UserTimingTime, "utt", Integer, -1, Flag(Timing), false)
    case 54 => ParameterInfo(UserTimingLabel, "utl", Text, 500, Flag(Timing), false)
    case 55 => ParameterInfo(PageLoadTime, "plt", Integer, -1, Flag(Timing), false)
    case 56 => ParameterInfo(DnsTime, "dns", Integer, -1, Flag(Timing), false)
    case 57 => ParameterInfo(PageDownloadTime, "pdt", Integer, -1, Flag(Timing), false)
    case 58 => ParameterInfo(RedirectResponseTime, "rrt", Integer, -1, Flag(Timing), false)
    case 59 => ParameterInfo(TcpConnectTime, "tcp", Integer, -1, Flag(Timing), false)
    case 60 => ParameterInfo(ServerResponseTime, "srt", Integer, -1, Flag(Timing), false)
    case 61 => ParameterInfo(ExceptionDescription, "exd", Text, 150, Flag(Exception), false)
    case 62 => ParameterInfo(IsExceptionFatal, "exf", Boolean, -1, Flag(Exception), false)
    case 63 => ParameterInfo(CustomDimension, "cd[1-9][0-9]*", Text, 150, AllTypes, false)
    case _ => ParameterInfo(CustomMetric, "cm[1-9][0-9]*", Integer, -1, AllTypes, false)
  }

  /** Row i of s_parameterInfo, in the order of the source table. */
  function Row(i: nat): (r: ParameterInfo)
    requires i < RowCount
    ensures r.parameter as int == i
  {
    if i < 16 then GeneralRows(i)
    else if i < 33 then ContentRows(i)
    else if i < 51 then InteractionRows(i)
    else TimingRows(i)
  }

  const ParameterTable: seq<ParameterInfo> := seq(RowCount, i requires 0 <= i < RowCount => Row(i))

  /** Row i describes the parameter whose value is i. */
  lemma RowsFollowEnumeration()
    ensures |ParameterTable| == RowCount
    ensures forall i :: 0 <= i < |ParameterTable| ==> ParameterTable[i].parameter as int == i
  {
  }

  /** Every parameter except the two experiment ones has a row, and no parameter has two. */
  lemma OneRowPerParameter(p: Parameter)
    ensures (p != ExperimentID && p != ExperimentVariant) <==>
            exists i :: 0 <= i < |ParameterTable| && ParameterTable[i].parameter == p
    ensures forall i, j ::
              (0 <= i < |ParameterTable| && 0 <= j < |ParameterTable| &&
               ParameterTable[i].parameter == p && ParameterTable[j].parameter == p) ==> i == j
  {
    RowsFollowEnumeration();
    if p != ExperimentID && p != ExperimentVariant {
      assert ParameterTable[p as int].parameter == p;
    }
  }

  /** The row number of a wire key (the inverse of the key column), or -1. */
  function RowOfKey(key: string): int {
    match key
    case "v" => 0 case "tid" => 1 case "aip" => 2 case "qt" => 3 case "z" => 4 case "cid" => 5
    case "sc" => 6 case "dr" => 7 case "cn" => 8 case "cs" => 9 case "cm" => 10 case "ck" => 11
    case "cc" => 12 case "ci" => 13 case "gclid" => 14 case "dclid" => 15 case "sr" => 16
    case "vp" => 17 case "de" => 18 case "sd" => 19 case "ul" => 20 case "je" => 21 case "fl" => 22
    case "t" => 23 case "ni" => 24 case "dl" => 25 case "dh" => 26 case "dp" => 27 case "dt" => 28
    case "cd" => 29 case "linkid" => 30 case "an" => 31 case "av" => 32 case "ec" => 33
    case "ea" => 34 case "el" => 35 case "ev" => 36 case "ti" => 37 case "ta" => 38 case "tr" => 39
    case "ts" => 40 case "tt" => 41 case "in" => 42 case "ip" => 43 case "iq" => 44 case "ic" => 45
    case "iv" => 46 case "cu" => 47 case "sn" => 48 case "sa" => 49 case "st" => 50
    case "utc" => 51 case "utv" => 52 case "utt" => 53 case "utl" => 54 case "plt" => 55
    case "dns" => 56 case "pdt" => 57 case "rrt" => 58 case "tcp" => 59 case "srt" => 60
    case "exd" => 61 case "exf" => 62 case "cd[1-9][0-9]*" => 63 case "cm[1-9][0-9]*" => 64
    case _ => -1
  }

  /*
   * RowOfKey recovers each row from its key. The table is checked in six blocks so that
   * each proof only has to evaluate a few rows against the key chain.
   */
  lemma KeysIdentifyRows0()
    ensures forall i :: 0 <= i < 16 ==> RowOfKey(Row(i).textualRepresentation) == i
  {
  }

  lemma KeysIdentifyRows1()
    ensures forall i :: 16 <= i < 32 ==> RowOfKey(Row(i).textualRepresentation) == i
  {
  }

  lemma KeysIdentifyRows2()
    ensures forall i :: 32 <= i < 44 ==> RowOfKey(Row(i).textualRepresentation) == i
  {
  }

  lemma KeysIdentifyRows3()
    ensures forall i :: 44 <= i < 53 ==> RowOfKey(Row(i).textualRepresentation) == i
  {
  }

  lemma KeysIdentifyRows4()
    ensures forall i :: 53 <= i < 59 ==> RowOfKey(Row(i).textualRepresentation) == i
  {
  }

  lemma KeysIdentifyRows5()
    ensures forall i :: 59 <= i < 65 ==> RowOfKey(Row(i).textualRepresentation) == i
  {
  }

  /** RowOfKey is a left inverse of the key column. */
  lemma KeyIdentifiesRow(i: nat)
    requires i < RowCount
    ensures RowOfKey(ParameterTable[i].textualRepresentation) == i
  {
    KeysIdentifyRows0(); KeysIdentifyRows1(); KeysIdentifyRows2();
    KeysIdentifyRows3(); KeysIdentifyRows4(); KeysIdentifyRows5();
  }

  /** No two rows share a wire key. */
  lemma KeysAreDistinct()
    ensures forall i, j ::
              0 <= i < |ParameterTable| && 0 <= j < |ParameterTable| && i != j ==>
              ParameterTable[i].textualRepresentation != ParameterTable[j].textualRepresentation
  {
    forall i, j | 0 <= i < |ParameterTable| && 0 <= j < |ParameterTable| && i != j
      ensures ParameterTable[i].textualRepresentation != ParameterTable[j].textualRepresentation
    {
      KeyIdentifiesRow(i);
      KeyIdentifiesRow(j);
    }
  }

  /**
   * The key of a custom dimension (prefix "cd") or custom metric (prefix "cm") with an index:
   * the prefix, then a digit 1-9, then any digits (the pattern prefix[1-9][0-9]*).
   */
  predicate MatchesCustomKey(prefix: string, key: string) {
    |key| >= |prefix| + 1 && key[..|prefix|] == prefix &&
    '1' <= key[|prefix|] <= '9' && AllDigits(key[|prefix| + 1..])
  }

  /** The pattern takes the positive indices and nothing else. */
  lemma CustomKeyExamples()
    ensures MatchesCustomKey("cd", "cd1") && MatchesCustomKey("cd", "cd20") && MatchesCustomKey("cm", "cm200")
    ensures !MatchesCustomKey("cd", "cd") && !MatchesCustomKey("cm", "cm")
    ensures !MatchesCustomKey("cd", "cd0") && !MatchesCustomKey("cd", "cd01") && !MatchesCustomKey("cm", "cmx")
  {
    assert "cd20"[3..] == "0";
    assert "cm200"[3..] == "00";
  }

  /**
   * A key that matches a custom pattern is none of the table's keys; in particular the plain
   * "cd" of ContentDescription and "cm" of CampaignMedium do not match the patterns.
   */
  lemma CustomKeysAreNotPlain(key: string)
    requires MatchesCustomKey("cd", key) || MatchesCustomKey("cm", key)
    ensures RowOfKey(key) == -1
  {
    assert |key| >= 3 && '1' <= key[2] <= '9';
  }

  /** The parameters whose rows are marked required. */
  predicate IsRequiredParameter(p: Parameter) {
    p == ProtocolVersion || p == TrackingID || p == ClientID || p == HitType || p == TransactionID ||
    p == ItemName || p == SocialNetwork || p == SocialAction || p == SocialActionTarget
  }

  /** Their keys. */
  predicate IsRequiredKey(key: string) {
    key == "v" || key == "tid" || key == "cid" || key == "t" || key == "ti" || key == "in" ||
    key == "sn" || key == "sa" || key == "st"
  }

  /** A row is required exactly when its parameter is one of the required parameters. */
  lemma RequiredRows()
    ensures forall i :: 0 <= i < |ParameterTable| ==>
              (ParameterTable[i].required <==> IsRequiredParameter(ParameterTable[i].parameter))
  {
  }

  /** The required keys are the keys of the required parameters and of nothing else. */
  lemma RequiredKeysNameRequiredParameters()
    ensures forall p: Parameter :: IsRequiredParameter(p) ==>
              p as int < RowCount && IsRequiredKey(Row(p as int).textualRepresentation)
    ensures forall key :: IsRequiredKey(key) ==>
              0 <= RowOfKey(key) < RowCount && IsRequiredParameter(RowOfKey(key) as Parameter)
  {
  }

  /** A row is required exactly when its key is one of v, tid, cid, t, ti, in, sn, sa, st. */
  lemma RequiredByKey(i: nat)
    requires i < RowCount
    ensures ParameterTable[i].required <==> IsRequiredKey(ParameterTable[i].textualRepresentation)
  {
    RequiredRows();
    RequiredKeysNameRequiredParameters();
    KeyIdentifiesRow(i);
  }

  /**
   * The hit types each row allows, by section of the enumeration: the event, e-commerce,
   * social, timing and exception parameters are limited to their own hit type (TransactionID to
   * transaction and item hits), and every other parameter allows all hit types.
   */
  lemma SupportedTypesBySection()
    ensures forall i :: 0 <= i < |ParameterTable| ==>
              var r := ParameterTable[i];
              (EventCategory <= r.parameter <= EventValue ==> r.supportedTypes == Flag(Event)) &&
              (r.parameter == TransactionID ==> r.supportedTypes == Flag(Transaction) | Flag(Item)) &&
              (TransactionAffiliation <= r.parameter <= TransactionTax ==>
                 r.supportedTypes == Flag(Transaction)) &&
              (ItemName <= r.parameter <= CurrencyCode ==> r.supportedTypes == Flag(Item)) &&
              (SocialNetwork <= r.parameter <= SocialActionTarget ==> r.supportedTypes == Flag(Social)) &&
              (UserTimingCategory <= r.parameter <= ServerResponseTime ==>
                 r.supportedTypes == Flag(Timing)) &&
              (ExceptionDescription <= r.parameter <= IsExceptionFatal ==>
                 r.supportedTypes == Flag(Exception)) &&
              (r.parameter < EventCategory || r.parameter > IsExceptionFatal ==>
                 r.supportedTypes == AllTypes)
  {
  }

  /** Every row allows at least one hit type. */
  lemma EveryRowAllowsSomeHitType(i: nat)
    requires i < RowCount
    ensures exists t: Type :: Supports(ParameterTable[i].supportedTypes, t)
  {
    SupportedTypesBySection();
    assert ParameterTable[i].supportedTypes != 0;
    NonEmptyTypesHaveAMember(ParameterTable[i].supportedTypes);
  }

  predicate IsBooleanParameter(p: Parameter) {
    p == AnonymizeIP || p == CacheBuster || p == JavaEnabled || p == NonInteractionHit ||
    p == IsExceptionFatal
  }

  predicate IsCurrencyParameter(p: Parameter) {
    p == TransactionRevenue || p == TransactionShipping || p == TransactionTax || p == ItemPrice
  }

  predicate IsIntegerParameter(p: Parameter) {
    p == QueueTime || p == EventValue || p == ItemQuantity || p == UserTimingTime ||
    p == PageLoadTime || p == DnsTime || p == PageDownloadTime || p == RedirectResponseTime ||
    p == TcpConnectTime || p == ServerResponseTime || p == CustomMetric
  }

  predicate IsBooleanKey(key: string) {
    key == "aip" || key == "z" || key == "je" || key == "ni" || key == "exf"
  }

  predicate IsCurrencyKey(key: string) {
    key == "tr" || key == "ts" || key == "tt" || key == "ip"
  }

  predicate IsIntegerKey(key: string) {
    key == "qt" || key == "ev" || key == "iq" || key == "utt" || key == "plt" || key == "dns" ||
    key == "pdt" || key == "rrt" || key == "tcp" || key == "srt" || key == "cm[1-9][0-9]*"
  }

  /** The value type of a row, as its parameter's class says. */
  predicate ValueTypeAgrees(r: ParameterInfo) {
    (r.valueType == Boolean <==> IsBooleanParameter(r.parameter)) &&
    (r.valueType == Currency <==> IsCurrencyParameter(r.parameter)) &&
    (r.valueType == Integer <==> IsIntegerParameter(r.parameter))
  }

  lemma ValueTypesAgreeLow()
    ensures forall i :: 0 <= i < 33 ==> ValueTypeAgrees(Row(i))
  {
  }

  lemma ValueTypesAgreeHigh()
    ensures forall i :: 33 <= i < RowCount ==> ValueTypeAgrees(Row(i))
  {
  }

  /** Each row's value type by its parameter: Boolean, Currency, Integer, or Text for the rest. */
  lemma ValueTypesByParameter()
    ensures forall i :: 0 <= i < |ParameterTable| ==>
              var r := ParameterTable[i];
              (r.valueType == Boolean <==> IsBooleanParameter(r.parameter)) &&
              (r.valueType == Currency <==> IsCurrencyParameter(r.parameter)) &&
              (r.valueType == Integer <==> IsIntegerParameter(r.parameter))
  {
    ValueTypesAgreeLow();
    ValueTypesAgreeHigh();
    assert forall i :: 0 <= i < |ParameterTable| ==> ValueTypeAgrees(ParameterTable[i]);
  }

  /** The Boolean keys are the keys of the Boolean parameters and of nothing else. */
  lemma BooleanKeysNameBooleanParameters()
    ensures forall p: Parameter :: IsBooleanParameter(p) ==>
              p as int < RowCount && IsBooleanKey(Row(p as int).textualRepresentation)
    ensures forall key :: IsBooleanKey(key) ==>
              0 <= RowOfKey(key) < RowCount && IsBooleanParameter(RowOfKey(key) as Parameter)
  {
  }

  /** The Currency keys are the keys of the Currency parameters and of nothing else. */
  lemma CurrencyKeysNameCurrencyParameters()
    ensures forall p: Parameter :: IsCurrencyParameter(p) ==>
              p as int < RowCount && IsCurrencyKey(Row(p as int).textualRepresentation)
    ensures forall key :: IsCurrencyKey(key) ==>
              0 <= RowOfKey(key) < RowCount && IsCurrencyParameter(RowOfKey(key) as Parameter)
  {
  }

  /** The Integer keys are the keys of the Integer parameters and of nothing else. */
  lemma IntegerKeysNameIntegerParameters()
    ensures forall p: Parameter :: IsIntegerParameter(p) ==>
              p as int < RowCount && IsIntegerKey(Row(p as int).textualRepresentation)
    ensures forall key :: IsIntegerKey(key) ==>
              0 <= RowOfKey(key) < RowCount && IsIntegerParameter(RowOfKey(key) as Parameter)
  {
  }

  /**
   * Each row's value type by its key: aip, z, je, ni, exf are Boolean; tr, ts, tt, ip are
   * Currency; qt, ev, iq, the timing keys and the custom metric are Integer; the rest are Text.
   */
  lemma ValueTypeByKey(i: nat)
    requires i < RowCount
    ensures var r := ParameterTable[i];
            (r.valueType == Boolean <==> IsBooleanKey(r.textualRepresentation)) &&
            (r.valueType == Currency <==> IsCurrencyKey(r.textualRepresentation)) &&
            (r.valueType == Integer <==> IsIntegerKey(r.textualRepresentation))
  {
    ValueTypesByParameter();
    BooleanKeysNameBooleanParameters();
    CurrencyKeysNameCurrencyParameters();
    IntegerKeysNameIntegerParameters();
    KeyIdentifiesRow(i);
  }

  /** A length limit is -1 (none) or positive. */
  lemma MaxLengthsArePositive()
    ensures forall i :: 0 <= i < |ParameterTable| ==>
              ParameterTable[i].maxLength == -1 || ParameterTable[i].maxLength > 0
  {
  }

  /** Only text rows have a length limit. */
  lemma OnlyTextIsLimited()
    ensures forall i :: 0 <= i < |ParameterTable| ==>
              ParameterTable[i].valueType != Text ==> ParameterTable[i].maxLength == -1
  {
  }
}
