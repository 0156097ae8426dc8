/**
 * The value types declared in QtGA.h: the QtGAHit::Type bit flags and their QFlags set,
 * the QtGAHit::Parameter enumeration, the QtGAValue wrapper and the QtGA session state.
 */
module QtGATypes {

  /** QtGAHit::Type without AllTypes: the eight kinds of hit. */
  datatype Type = PageView | AppView | Event | Transaction | Item | Social | Exception | Timing

  /** QtGAHit::Types, a QFlags set of hit types; every flag fits in one octet. */
  type Types = bv8

  /** The bit of one hit type (PageView = 1<<0 ... Timing = 1<<7). */
  function Flag(t: Type): Types {
    match t
    case PageView => 1 << 0
    case AppView => 1 << 1
    case Event => 1 << 2
    case Transaction => 1 << 3
    case Item => 1 << 4
    case Social => 1 << 5
    case Exception => 1 << 6
    case Timing => 1 << 7
  }

  const AllTypes: Types :=
    Flag(PageView) | Flag(AppView) | Flag(Event) | Flag(Transaction) |
    Flag(Item) | Flag(Social) | Flag(Exception) | Flag(Timing)

  /** A flag set contains a hit type when that type's bit is set. */
  predicate Supports(types: Types, t: Type) {
    types & Flag(t) != 0
  }

  /** Each hit type owns exactly one bit, and no two hit types share it. */
  lemma FlagsAreDistinctBits(t: Type, u: Type)
    ensures Flag(t) != 0 && Flag(t) & (Flag(t) - 1) == 0
    ensures t != u ==> Flag(t) & Flag(u) == 0
  {
  }

  /** AllTypes is exactly the set of all eight flags: 255, and the only set containing every type. */
  lemma AllTypesIsUnion(types: Types)
    ensures AllTypes == 255
    ensures (forall t: Type :: Supports(types, t)) <==> types == AllTypes
  {
    if forall t: Type :: Supports(types, t) {
      assert Supports(types, PageView) && Supports(types, AppView) && Supports(types, Event);
      assert Supports(types, Transaction) && Supports(types, Item) && Supports(types, Social);
      assert Supports(types, Exception) && Supports(types, Timing);
    }
  }

  /** A flag set with any bit set contains some hit type, since the eight flags cover all bits. */
  lemma NonEmptyTypesHaveAMember(types: Types)
    requires types != 0
    ensures exists t: Type :: Supports(types, t)
  {
    if !Supports(types, PageView) && !Supports(types, AppView) && !Supports(types, Event) &&
       !Supports(types, Transaction) && !Supports(types, Item) && !Supports(types, Social) &&
       !Supports(types, Exception) {
      assert Supports(types, Timing);
    }
  }

  /** QtGAValue::Type. */
  datatype ValueType = Text | Currency | Boolean | Integer

  /**
   * QtGAHit::Parameter, an unscoped enumeration: its enumerators are the integers 0 to 66 in
   * declaration order, ProtocolVersion = 0 and each next one one more.
   */
  const ParameterCount: nat := 67
  newtype Parameter = x: int | 0 <= x < ParameterCount

  const ProtocolVersion: Parameter := 0
  const TrackingID: Parameter := 1
  const AnonymizeIP: Parameter := 2
  const QueueTime: Parameter := 3
  const CacheBuster: Parameter := 4
  const ClientID: Parameter := 5
  const SessionControl: Parameter := 6
  const DocumentReferrer: Parameter := 7
  const CampaignName: Parameter := 8
  const CampaignSource: Parameter := 9
  const CampaignMedium: Parameter := 10
  const CampaignKeyword: Parameter := 11
  const CampaignContent: Parameter := 12
  const CampaignID: Parameter := 13
  const GoogleAdWordsID: Parameter := 14
  const GoogleDisplayAdsID: Parameter := 15
  const ScreenResolution: Parameter := 16
  const ViewportSize: Parameter := 17
  const DocumentEncoding: Parameter := 18
  const ScreenColors: Parameter := 19
  const UserLanguage: Parameter := 20
  const JavaEnabled: Parameter := 21
  const FlashVersion: Parameter := 22
  const HitType: Parameter := 23
  const NonInteractionHit: Parameter := 24
  const DocumentLocationUrl: Parameter := 25
  const DocumentHostName: Parameter := 26
  const DocumentPath: Parameter := 27
  const DocumentTitle: Parameter := 28
  const ContentDescription: Parameter := 29
  const LinkID: Parameter := 30
  const ApplicationName: Parameter := 31
  const ApplicationVersion: Parameter := 32
  const EventCategory: Parameter := 33
  const EventAction: Parameter := 34
  const EventLabel: Parameter := 35
  const EventValue: Parameter := 36
  const TransactionID: Parameter := 37
  const TransactionAffiliation: Parameter := 38
  const TransactionRevenue: Parameter := 39
  const TransactionShipping: Parameter := 40
  const TransactionTax: Parameter := 41
  const ItemName: Parameter := 42
  const ItemPrice: Parameter := 43
  const ItemQuantity: Parameter := 44
  const ItemCode: Parameter := 45
  const ItemCategory: Parameter := 46
  const CurrencyCode: Parameter := 47
  const SocialNetwork: Parameter := 48
  const SocialAction: Parameter := 49
  const SocialActionTarget: Parameter := 50
  const UserTimingCategory: Parameter := 51
  const UserTimingVariableName: Parameter := 52
  const UserTimingTime: Parameter := 53
  const UserTimingLabel: Parameter := 54
  const PageLoadTime: Parameter := 55
  const DnsTime: Parameter := 56
  const PageDownloadTime: Parameter := 57
  const RedirectResponseTime: Parameter := 58
  const TcpConnectTime: Parameter := 59
  const ServerResponseTime: Parameter := 60
  const ExceptionDescription: Parameter := 61
  const IsExceptionFatal: Parameter := 62
  const CustomDimension: Parameter := 63
  const CustomMetric: Parameter := 64
  const ExperimentID: Parameter := 65
  const ExperimentVariant: Parameter := 66

  /** WebPropertyID = TrackingID: another name for the same enumerator. */
  const WebPropertyID: Parameter := TrackingID

  /** QtGAValue: a QVariant holding nothing, a QString or a bool. */
  datatype Value = NoValue | StringValue(s: string) | BoolValue(b: bool) {

    /** QtGAValue::toString, that is QVariant::toString. */
    function ToString(): string {
      match this
      case NoValue => ""
      case StringValue(s) => s
      case BoolValue(b) => if b then "true" else "false"
    }
  }

  /** A QtGAValue built from a QString gives that same string back. */
  lemma StringValueRoundTrip(s: string)
    ensures StringValue(s).ToString() == s
  {
  }

  /** QtGA::Session, the state of the next-hit session-control flag. */
  datatype Session = NoSession | StartSession | EndSession
}
