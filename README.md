# QtGoogleAnalytics in Dafny

This project models QtGoogleAnalytics, a small Qt library that sends Google Analytics
Measurement Protocol hits — page views, events, transactions and so on — from a Qt
application. It proves properties of the model. Two parts of the library are modelled.

- **The tracker** (`QtGoogleAnalytics::Tracker`, src/QtGoogleAnalytics.cpp):
  - It validates a parameter list with `isValidHit`.
  - It appends the protocol version (`v`), the tracking ID (`tid`) and the client ID (`cid`) to the list.
  - It builds a POST or GET request, with an optional cache buster `z`, and warns when the request is too large.
  - It records the reply as pending. `onFinished` reports each pending reply once.
  - Its setters validate their inputs.
- **The QtGA half** (include/QtGA/QtGA.h, src/QtGA.cpp and src/QtGAConfiguration.cpp):
  - the hit-type flags, the `Parameter` enumeration, `QtGAValue` and the session enumeration;
  - `s_parameterInfo`, the constant table of every protocol parameter;
  - the `QtGA` object, which holds the network manager and the session flag;
  - `QtGAHit`, which holds a configuration copy and a parameter map;
  - `QtGAConfiguration`, whose setters check the tracking ID, the client ID (a UUID) and the endpoint.

The modules follow the source:

| file | module | models |
|---|---|---|
| wrappers.dfy | `Wrappers` | `Option` |
| text.dfy | `Text` | `QString::number` and `QString::toLongLong` in base 10; ASCII case folding |
| url_encoding.dfy | `UrlEncoding` | percent-encoding of a query, with its decoder and their round trip; `QUrl` as a value |
| qtga_types.dfy | `QtGATypes` | the enumerations and `QtGAValue` of QtGA.h |
| parameter_catalog.dfy | `ParameterCatalog` | `s_parameterInfo` |
| hit_validation.dfy | `HitValidation` | `isBoolean`, `isInteger`, `isCurrency` as predicates; `isValidHit` as a predicate and as the looping method the source is |
| configuration.dfy | `Configuration` | the `QtGAConfiguration` class; UUID version and variant; the tracking-ID pattern |
| qtga_objects.dfy | `QtGAObjects` | the `QtGA` and `QtGAHit` classes |
| request_builder.dfy | `Requests` | the POST and GET requests of `Tracker::track(QUrlQuery)`, as values |
| tracker.dfy | `Tracking` | the `Tracker` class, `track` (both overloads) and `onFinished` |

Objects whose fields the source updates in place are Dafny classes. Their setters carry
`modifies` frames, so each setter changes only its own field. `Tracker` and
`QtGAConfiguration` each keep a `Valid()` invariant that every setter preserves:

- **Tracker:**
  - the operation is POST or GET;
  - the user agent and the client ID are non-empty;
  - the tracking ID is empty or well formed;
  - every submitted request is either pending or finished, never both.
- **QtGAConfiguration:**
  - the tracking ID is empty or well formed;
  - the client ID is null or a random UUID;
  - without SSL, the endpoint is never https.

External inputs become parameters:

- `qrand()` is a natural number `rand`.
- `QUrl::isValid` of the tracker's endpoint is a boolean `isValid`.
- Whether Qt was built with SSL (the `QT_NO_SSL` macro) is the constant field `sslAvailable`.
- Whether a `QObject` parent is a `QNetworkAccessManager` is a boolean `parentIsManager`.
- An error on a finished reply is a boolean `replyError`.
- Each `qWarning` is a boolean result (`warned`).

Sending a request is modelled as appending it to the tracker's `submitted` sequence. The
handle of its reply is the request's index there.

Where the library's design description and the code disagree, the model follows the code:

- `isCurrency` matches `.*-?\d*\.\d{2,6}`. The leading `.*` accepts any prefix, so only the point and the
  2 to 6 final digits matter (`HitValidation.CurrencyIsDecimalTail`).
- `isValidHit` checks only the 16 keys of its `typeValidations` map. The catalog also types `z`, `ni`, `exf` and
  the custom metric, but those keys are not checked.
- `QtGAConfiguration::setEndpoint` without SSL replaces an https endpoint by the empty URL. It does not keep the
  previous endpoint.
- `QtGAConfiguration::setClientID` accepts only a non-null version 4 UUID.
- `Tracker::setClientID` accepts any non-empty text.
- `track(ParameterList)` appends `v`, `tid` and `cid` after the caller's items. It does not replace copies the
  caller already supplied, but the appended values come last, so they are the ones a last-value reading sees
  (`Tracking.HitItemsEndWithTrackerValues`).
- Nothing attaches or resets the session flag of `QtGA`.
- `QtGAConfiguration::NORMAL_ENDPOINT` is written as `"https//www.google-analytics.com/collect"`, with no colon.
  It is modelled as the URL that text denotes: no scheme, and a relative path (`Configuration.NormalEndpoint`).

## Model

| member | source | states |
|---|---|---|
| Text.ToLowerAscii | src/QtGoogleAnalytics.cpp:245-246 | case-insensitive matching maps each of A-Z to its lower-case letter (code point plus 32) and leaves every other character alone |
| Text.NatToDecimal | src/QtGoogleAnalytics.cpp:51 | the decimal text of a natural number is non-empty and all digits |
| Text.DecimalRoundTrip | src/QtGoogleAnalytics.cpp:51 | the value of the decimal text of n is n |
| Text.NatToDecimalNoLeadingZero | src/QtGoogleAnalytics.cpp:51 | decimal text starts with '0' exactly for zero |
| Text.NatToDecimalLength | src/QtGoogleAnalytics.cpp:205 | a number below 10^k has at most k digits |
| Text.ToLongLong | src/QtGoogleAnalytics.cpp:51 | toLongLong always yields a 64-bit value (0 on failure or overflow) |
| Text.ParseNumber | src/QtGoogleAnalytics.cpp:51 | toLongLong of QString::number(n) is n for every 64-bit n |
| Text.NumberShape | src/QtGoogleAnalytics.cpp:51 | QString::number text has no '+' and no leading zero; a non-negative value gives at most 19 digits, a negative one '-' followed by 1 to 19 digits not starting with '0' |
| UrlEncoding.Utf8 | src/QtGoogleAnalytics.cpp:188 | a character encodes to 1 to 4 UTF-8 octets, one octet exactly for ASCII, continuation octets in 0x80..0xBF |
| UrlEncoding.EncodeComponent | src/QtGoogleAnalytics.cpp:188 | the encoded text is no shorter than the input and holds only unreserved characters and '%' |
| UrlEncoding.DecodeComponent | src/QtGoogleAnalytics.cpp:188 | percent-decoding an encoded component gives back the UTF-8 octets of the original |
| UrlEncoding.EncodeComponentVerbatim | src/QtGoogleAnalytics.cpp:188 | a component is sent unchanged exactly when all its characters are unreserved |
| UrlEncoding.EncodeQuery | src/QtGoogleAnalytics.cpp:188 | the encoded query is empty exactly when there are no items |
| UrlEncoding.EncodedPairHasNoAmpersand | src/QtGoogleAnalytics.cpp:188 | an encoded key=value pair never contains the separator '&' |
| UrlEncoding.DecodeEncodedPair | src/QtGoogleAnalytics.cpp:188 | decoding one encoded pair gives back its key and value octets |
| UrlEncoding.SplitEncodedQuery | src/QtGoogleAnalytics.cpp:188 | splitting the encoded query at '&' gives exactly one piece per item, in order |
| UrlEncoding.QueryRoundTrip | src/QtGoogleAnalytics.cpp:188 | decoding the encoded query gives every item back, in order |
| UrlEncoding.WithQuery | src/QtGoogleAnalytics.cpp:208 | setQuery keeps scheme and path, and the new query decodes to exactly the items (no query for no items) |
| QtGATypes.FlagsAreDistinctBits | include/QtGA/QtGA.h:70-77 | each hit-type flag is a single non-zero bit and no two types share it |
| QtGATypes.AllTypesIsUnion | include/QtGA/QtGA.h:78 | AllTypes is 255, and a flag set contains every hit type exactly when it is AllTypes |
| QtGATypes.NonEmptyTypesHaveAMember | include/QtGA/QtGA.h:68-80 | any non-zero flag set contains some hit type |
| QtGATypes.StringValueRoundTrip | include/QtGA/QtGA.h:53-59 | a QtGAValue built from a string gives that string back from toString |
| ParameterCatalog.GeneralRows | src/QtGA.cpp:76-91 | row i of the general, session and traffic-source block describes parameter i |
| ParameterCatalog.ContentRows | src/QtGA.cpp:92-108 | row i of the system-info, hit and content block describes parameter i |
| ParameterCatalog.InteractionRows | src/QtGA.cpp:109-126 | row i of the event, e-commerce and social block describes parameter i |
| ParameterCatalog.TimingRows | src/QtGA.cpp:127-141 | row i of the timing, exception and custom block describes parameter i |
| ParameterCatalog.Row | src/QtGA.cpp:75-145 | row i of s_parameterInfo describes parameter i |
| ParameterCatalog.RowsFollowEnumeration | src/QtGA.cpp:75-145 | the table has 65 rows and row i has parameter == i |
| ParameterCatalog.OneRowPerParameter | src/QtGA.cpp:75-145 | a parameter has a row exactly when it is not ExperimentID or ExperimentVariant, and never two rows |
| ParameterCatalog.KeysIdentifyRows0 | src/QtGA.cpp:76-91 | rows 0-15 are recovered from their wire keys |
| ParameterCatalog.KeysIdentifyRows1 | src/QtGA.cpp:92-107 | rows 16-31 are recovered from their wire keys |
| ParameterCatalog.KeysIdentifyRows2 | src/QtGA.cpp:108-119 | rows 32-43 are recovered from their wire keys |
| ParameterCatalog.KeysIdentifyRows3 | src/QtGA.cpp:120-128 | rows 44-52 are recovered from their wire keys |
| ParameterCatalog.KeysIdentifyRows4 | src/QtGA.cpp:129-134 | rows 53-58 are recovered from their wire keys |
| ParameterCatalog.KeysIdentifyRows5 | src/QtGA.cpp:135-141 | rows 59-64 are recovered from their wire keys |
| ParameterCatalog.KeyIdentifiesRow | src/QtGA.cpp:76-141 | the key-to-row lookup is a left inverse of the key column |
| ParameterCatalog.KeysAreDistinct | src/QtGA.cpp:76-141 | no two rows share a wire key |
| ParameterCatalog.CustomKeyExamples | src/QtGA.cpp:140-141 | cd[1-9][0-9]* and cm[1-9][0-9]* take cd1, cd20, cm200 and reject cd, cm, cd0, cd01, cmx |
| ParameterCatalog.CustomKeysAreNotPlain | src/QtGA.cpp:140-141 | a key matching a custom pattern is none of the table's keys, so the plain "cd" and "cm" do not match them |
| ParameterCatalog.RequiredRows | src/QtGA.cpp:76-126 | a row is required exactly for ProtocolVersion, TrackingID, ClientID, HitType, TransactionID, ItemName and the three social parameters |
| ParameterCatalog.RequiredKeysNameRequiredParameters | src/QtGA.cpp:76-126 | the keys v, tid, cid, t, ti, in, sn, sa, st are exactly the keys of the required parameters |
| ParameterCatalog.RequiredByKey | src/QtGA.cpp:76-126 | a row is required exactly when its key is one of v, tid, cid, t, ti, in, sn, sa, st |
| ParameterCatalog.SupportedTypesBySection | src/QtGA.cpp:76-141 | event, transaction, item, social, timing and exception rows allow only their own hit type (ti: transaction and item); all others allow AllTypes |
| ParameterCatalog.EveryRowAllowsSomeHitType | src/QtGA.cpp:76-141 | every row allows at least one hit type |
| ParameterCatalog.ValueTypesAgreeLow | src/QtGA.cpp:76-108 | rows 0-32 carry the value type of their parameter's class |
| ParameterCatalog.ValueTypesAgreeHigh | src/QtGA.cpp:109-141 | rows 33-64 carry the value type of their parameter's class |
| ParameterCatalog.ValueTypesByParameter | src/QtGA.cpp:76-141 | a row is Boolean, Currency or Integer exactly when its parameter is in that class, else Text |
| ParameterCatalog.BooleanKeysNameBooleanParameters | src/QtGA.cpp:76-141 | aip, z, je, ni, exf are exactly the keys of the Boolean parameters |
| ParameterCatalog.CurrencyKeysNameCurrencyParameters | src/QtGA.cpp:76-141 | tr, ts, tt, ip are exactly the keys of the Currency parameters |
| ParameterCatalog.IntegerKeysNameIntegerParameters | src/QtGA.cpp:76-141 | qt, ev, iq, the seven timing keys and the custom metric are exactly the keys of the Integer parameters |
| ParameterCatalog.ValueTypeByKey | src/QtGA.cpp:76-141 | a row's value type follows from its key: Boolean, Currency and Integer key sets, Text otherwise |
| ParameterCatalog.MaxLengthsArePositive | src/QtGA.cpp:76-141 | every length limit is -1 (none) or positive |
| ParameterCatalog.OnlyTextIsLimited | src/QtGA.cpp:76-141 | Boolean, Integer and Currency rows have no length limit |
| HitValidation.BooleanIsInteger | src/QtGoogleAnalytics.cpp:44-52 | every text isBoolean accepts ("1", "0") is also an integer text |
| HitValidation.IsIntegerIff | src/QtGoogleAnalytics.cpp:49-52 | isInteger holds exactly for QString::number of some 64-bit integer |
| HitValidation.IntegerShape | src/QtGoogleAnalytics.cpp:49-52 | an accepted integer text is non-empty and has no '+'; unsigned it is at most 19 digits with no leading zero, signed it is '-' followed by 1 to 19 digits not starting with '0' |
| HitValidation.IntegerExampleZero | src/QtGoogleAnalytics.cpp:49-52 | "0" is an integer |
| HitValidation.IntegerExampleLarge | src/QtGoogleAnalytics.cpp:49-52 | "9876543210" is an integer |
| HitValidation.IntegerExamplePositive | src/QtGoogleAnalytics.cpp:49-52 | "42" is an integer |
| HitValidation.IntegerExampleNegative | src/QtGoogleAnalytics.cpp:49-52 | "-42" is an integer |
| HitValidation.IntegerRejectsText | src/QtGoogleAnalytics.cpp:49-52 | "foo" and "" are not integers |
| HitValidation.IntegerRejectsPlus | src/QtGoogleAnalytics.cpp:49-52 | "+5" is not an integer |
| HitValidation.IntegerRejectsLeadingZero | src/QtGoogleAnalytics.cpp:49-52 | "007" is not an integer |
| HitValidation.IntegerRejectsOverflow | src/QtGoogleAnalytics.cpp:49-52 | a 20-digit text beyond 64 bits is not an integer |
| HitValidation.CurrencyIsDecimalTail | src/QtGoogleAnalytics.cpp:54-58 | isCurrency holds exactly when the text ends in '.' and 2 to 6 digits |
| HitValidation.CurrencyAccepts | src/QtGoogleAnalytics.cpp:54-58 | "-55.00", "1000.000001" and "x1.00" are currency |
| HitValidation.CurrencyAcceptsCents | src/QtGoogleAnalytics.cpp:54-58 | "12.50" is currency |
| HitValidation.CurrencyRejects | src/QtGoogleAnalytics.cpp:54-58 | "foo", "1.2345678", "1.5" and "12" are not currency |
| HitValidation.LastValue | src/QtGoogleAnalytics.cpp:94-99 | the value kept for a key is the value of some pair with that key |
| HitValidation.LastValueIffHasKey | src/QtGoogleAnalytics.cpp:94-99 | a key has a kept value exactly when some pair carries it |
| HitValidation.LastValueIsLast | src/QtGoogleAnalytics.cpp:94-99 | the kept value belongs to a pair after which the key does not occur again |
| HitValidation.LastValueSnoc | src/QtGoogleAnalytics.cpp:99 | inserting the next pair sets the kept value of its key and keeps all others |
| HitValidation.AllOfCorrectTypeSnoc | src/QtGoogleAnalytics.cpp:101-105 | after the next pair, all values are well typed exactly when they were before and the new one is |
| HitValidation.HoldsLastValuesSnoc | src/QtGoogleAnalytics.cpp:96-99 | params.insert of each pair keeps the hash holding the last value of every key |
| HitValidation.ValidHitFromLastValues | src/QtGoogleAnalytics.cpp:108-124 | the hit-type and required-key checks on the hash of last values decide the modelled verdict |
| HitValidation.IsValidHit | src/QtGoogleAnalytics.cpp:60-125 | the two loops return true exactly when the last "t" names one of the eight hit types, every required key of that type occurs, and every checked value passes |
| HitValidation.HitTypeIsNeeded | src/QtGoogleAnalytics.cpp:108-111 | a hit without "t", or whose last "t" is no hit type, is invalid |
| HitValidation.RequiredKeysPerHitType | src/QtGoogleAnalytics.cpp:85-122 | a transaction needs ti, an item ti and in, a social hit sn, sa and st (any value); the other five types need nothing |
| HitValidation.IllTypedValueInvalidates | src/QtGoogleAnalytics.cpp:101-105 | one ill-typed occurrence of a checked key invalidates the hit, even if a later one is well typed |
| HitValidation.RequiredKeysAreRequiredSomewhere | src/QtGoogleAnalytics.cpp:85-88 | every required key is one of ti, in, sn, sa, st |
| HitValidation.HasKeyAfterInsert | src/QtGoogleAnalytics.cpp:119 | inserting a pair does not change whether another key occurs |
| HitValidation.AllOfCorrectTypeAfterInsert | src/QtGoogleAnalytics.cpp:101-105 | inserting a well-typed pair keeps the list exactly as well typed |
| HitValidation.LastValueAfterInsert | src/QtGoogleAnalytics.cpp:94-99 | inserting a pair anywhere does not change another key's last value |
| HitValidation.IgnoredKeyDoesNotMatter | src/QtGoogleAnalytics.cpp:94-124 | a pair with an unchecked, non-"t", never-required key can be inserted anywhere without changing the verdict |
| HitValidation.LastValueOfSuffix | src/QtGoogleAnalytics.cpp:94-99 | later `QHash::insert` calls overwrite earlier ones: a suffix that holds the key decides the value kept, whatever precedes it |
| HitValidation.LastHitTypeWins | src/QtGoogleAnalytics.cpp:108-109 | only the last "t" counts: removing an earlier "t" at any position before a later one never changes the verdict |
| HitValidation.LastOfTwoHitTypesWins | src/QtGoogleAnalytics.cpp:108-109 | of two trailing "t" pairs the first changes nothing |
| HitValidation.PageViewExample | src/QtGoogleAnalytics.cpp:60-125 | t=pageview alone is a valid hit |
| HitValidation.EventExampleIsTyped | src/QtGoogleAnalytics.cpp:62-78 | t=event with ev=42 passes every type check |
| HitValidation.EventExample | src/QtGoogleAnalytics.cpp:60-125 | t=event with ev=42 is a valid hit |
| HitValidation.IllTypedEventExample | src/QtGoogleAnalytics.cpp:60-125 | t=event with ev=4.2 is invalid |
| HitValidation.MissingTransactionIDExample | src/QtGoogleAnalytics.cpp:60-125 | t=transaction without ti is invalid |
| HitValidation.TransactionExampleIsTyped | src/QtGoogleAnalytics.cpp:62-78 | t=transaction, tr=12.50, ti=T1 passes every type check |
| HitValidation.TransactionExample | src/QtGoogleAnalytics.cpp:60-125 | t=transaction, tr=12.50, ti=T1 is a valid hit |
| HitValidation.UnknownHitTypeExample | src/QtGoogleAnalytics.cpp:60-125 | a last "t" of "unknown", or no "t" at all, is invalid |
| HitValidation.ValidHitTypesAreTheTypes | src/QtGoogleAnalytics.cpp:81-83 | validHitTypes holds exactly the wire names of the eight QtGAHit types, one name per type |
| HitValidation.BooleanTypedKeysHaveRows | src/QtGoogleAnalytics.cpp:63-64 | each Boolean-checked key is the key of a catalog row |
| HitValidation.CurrencyTypedKeysHaveRows | src/QtGoogleAnalytics.cpp:65-68 | each Currency-checked key is the key of a catalog row |
| HitValidation.IntegerTypedKeysHaveRows | src/QtGoogleAnalytics.cpp:69-78 | each Integer-checked key is the key of a catalog row |
| HitValidation.TypedKeysHaveRows | src/QtGoogleAnalytics.cpp:62-78 | every checked key is the key of a catalog row |
| HitValidation.TypeValidationsAgreeWithCatalog | src/QtGoogleAnalytics.cpp:62-78 | the check on each typed key is the value type the catalog gives that key |
| HitValidation.RequiredKeysAgreeWithCatalog | src/QtGoogleAnalytics.cpp:85-88 | each key required for a hit type has a catalog row that is marked required and allows that type |
| Configuration.VariantOf | src/QtGAConfiguration.cpp:86 | a UUID is of the DCE variant exactly when it is not null and the top bits of octet 8 are 10 |
| Configuration.VersionOf | src/QtGAConfiguration.cpp:86 | a UUID's version is unknown (-1) or one of 1 to 5 |
| Configuration.AcceptedClientIDIff | src/QtGAConfiguration.cpp:84-90 | setClientID accepts a UUID exactly when its version nibble is 4 and its variant bits are 10 |
| Configuration.RandomIsNotNull | src/QtGAConfiguration.cpp:86 | a version 4 UUID is never null, so the null check is implied |
| Configuration.ClientIDExamples | src/QtGAConfiguration.cpp:84-90 | a random UUID is accepted; the null UUID, a version 1 UUID and a non-DCE UUID are not |
| Configuration.TrackingIDParts | src/QtGAConfiguration.cpp:18-19 | in an accepted ID, the dash after "UA-" ends 4 to 10 digits and starts 1 to 4 digits |
| Configuration.TrackingIDAccepts | src/QtGAConfiguration.cpp:16-27 | "UA-987654321-1234" and "UA-4321-0" are accepted |
| Configuration.TrackingIDRejects | src/QtGAConfiguration.cpp:16-27 | "FOO-BAR-BAZ", "ua-4321-0", "UA-321-0" and "UA-4321-12345" are rejected |
| Configuration.StoredEndpoint | src/QtGAConfiguration.cpp:43-57 | with SSL the endpoint is stored as given; without SSL an https endpoint is never stored, and any other endpoint is stored as given |
| Configuration.StoredEndpointIdempotent | src/QtGAConfiguration.cpp:43-57 | storing the stored endpoint again changes nothing |
| Configuration.QtGAConfiguration.constructor | src/QtGAConfiguration.cpp:9-14 | defaults: empty tracking ID, NORMAL_ENDPOINT, PostRequest, "QtGA/1.0", cache busting off, null client ID; the invariant holds |
| Configuration.QtGAConfiguration.SetTrackingID | src/QtGAConfiguration.cpp:16-27 | the tracking ID becomes the input when it matches UA-\d{4,10}-\d{1,4} and "" otherwise; only that field changes |
| Configuration.QtGAConfiguration.TrackingID | src/QtGAConfiguration.cpp:29-32 | the tracking ID read back is "" or well formed |
| Configuration.QtGAConfiguration.IsSecure | src/QtGAConfiguration.cpp:34-41 | true exactly when the endpoint's scheme is https, and never without SSL |
| Configuration.QtGAConfiguration.SetEndpoint | src/QtGAConfiguration.cpp:43-57 | the endpoint becomes the stored form of the input; only that field changes |
| Configuration.QtGAConfiguration.Endpoint | src/QtGAConfiguration.cpp:59-62 | without SSL the endpoint read back is never https |
| Configuration.QtGAConfiguration.SetIPAnonymization | src/QtGAConfiguration.cpp:64-67 | the flag becomes the input; only that field changes |
| Configuration.QtGAConfiguration.SetUserAgent | src/QtGAConfiguration.cpp:74-77 | the user agent becomes the input, the empty text included; only that field changes |
| Configuration.QtGAConfiguration.SetClientID | src/QtGAConfiguration.cpp:84-90 | a non-null random UUID is stored; anything else keeps the previous client ID |
| Configuration.QtGAConfiguration.ClientID | src/QtGAConfiguration.cpp:92-95 | the client ID read back is null or a random UUID |
| Configuration.QtGAConfiguration.SetCacheBusting | src/QtGAConfiguration.cpp:97-100 | the flag becomes the input; only that field changes |
| QtGAObjects.QtGA.constructor | src/QtGA.cpp:148-155 | the session starts as NoSession, and a parent that is a network manager becomes the manager |
| QtGAObjects.QtGA.SetNetworkAccessManager | src/QtGA.cpp:157-164 | a non-null manager becomes manager and parent; null changes nothing |
| QtGAObjects.QtGA.StartSession | src/QtGA.cpp:171-174 | the session becomes StartSession; nothing else changes |
| QtGAObjects.QtGA.EndSession | src/QtGA.cpp:176-179 | the session becomes EndSession; nothing else changes |
| QtGAObjects.QtGAHit.constructor | src/QtGA.cpp:203-205 | the hit holds the given configuration and no parameters |
| QtGAObjects.QtGAHit.SetConfiguration | src/QtGA.cpp:207-210 | the configuration copy becomes the input |
| QtGAObjects.QtGAHit.AddParameter | src/QtGA.cpp:244-248 | the parameter maps to the value and every other entry is unchanged |
| QtGAObjects.QtGAHit.SetExperiment | src/QtGA.cpp:217-222 | both texts are stored, and experimentID and experimentVariant then return exactly them |
| QtGAObjects.QtGAHit.ExperimentID | src/QtGA.cpp:224-232 | "" when no experiment ID is stored, otherwise the stored text |
| QtGAObjects.QtGAHit.ExperimentVariant | src/QtGA.cpp:234-242 | "" when no experiment variant is stored, otherwise the stored text |
| Requests.PostRequest | src/QtGoogleAnalytics.cpp:186-196 | a POST goes to the endpoint itself with the form content type, and its body decodes to exactly the items |
| Requests.CacheBuster | src/QtGoogleAnalytics.cpp:205 | the cache buster is "z" with the decimal text of a number in 0..99999999 |
| Requests.GetItems | src/QtGoogleAnalytics.cpp:201-206 | the GET items are the query's items, followed by the cache buster exactly when cache busting is on |
| Requests.GetRequest | src/QtGoogleAnalytics.cpp:198-218 | a GET has no body and no content type, keeps the endpoint's scheme and path, and its query decodes to the GET items |
| Requests.BuildRequest | src/QtGoogleAnalytics.cpp:181-219 | the request is the POST request for POST and the GET request for GET |
| Requests.CacheBusterIsInteger | src/QtGoogleAnalytics.cpp:205 | the cache buster passes isInteger and has at most 8 characters |
| Requests.EncodedQueryHoldsEachPair | src/QtGoogleAnalytics.cpp:188 | the encoded query is at least as long as any one encoded item |
| Requests.EncodedPairLength | src/QtGoogleAnalytics.cpp:188 | an encoded item is longer than its raw value |
| Requests.LongPostValueWarns | src/QtGoogleAnalytics.cpp:188-192 | a POST with a value of 8192 or more characters always warns |
| Requests.LongGetValueWarns | src/QtGoogleAnalytics.cpp:208-215 | a GET with a value of 2000 or more characters always warns |
| Requests.EmptyGetIsEndpoint | src/QtGoogleAnalytics.cpp:200-209 | with no items and cache busting off, a GET goes to the endpoint itself |
| Tracking.TrackerTrackingIDAccepts | src/QtGoogleAnalytics.cpp:242-251 | "UA-1234-5", "yt-1-2" and "Mo-12-34" are accepted |
| Tracking.TrackerTrackingIDRejects | src/QtGoogleAnalytics.cpp:242-251 | "GA-1-2", "UA-1-", "UA--2" and "UA-1-2-3" are rejected |
| Tracking.ConfigurationIDsAreTrackerIDs | src/QtGoogleAnalytics.cpp:245-247 | every tracking ID QtGAConfiguration accepts is accepted by the Tracker too |
| Tracking.TrackerIDsAreLooser | src/QtGoogleAnalytics.cpp:245-247 | the Tracker accepts an ID ("yt-1-2") that QtGAConfiguration rejects |
| Tracking.HitItems | src/QtGoogleAnalytics.cpp:173-177 | the submitted items are the caller's items in order, then three more |
| Tracking.HitItemsEndWithTrackerValues | src/QtGoogleAnalytics.cpp:173-177 | the last v is "1", the last tid the tracker's tracking ID and the last cid its client ID |
| Tracking.AppendIgnored | src/QtGoogleAnalytics.cpp:173-177 | appending v, tid or cid does not change the verdict of isValidHit |
| Tracking.HitItemsKeepVerdict | src/QtGoogleAnalytics.cpp:166-178 | the items sent are a valid hit exactly when the caller's items are |
| Tracking.SetManagerAsWritten | src/QtGoogleAnalytics.cpp:146-159 | as written: null changes nothing; otherwise the given manager is stored with the given ownership, and the old manager, exactly when owned, is the one deleted |
| Tracking.AsWrittenUsesDeletedManager | src/QtGoogleAnalytics.cpp:153-157 | as written, passing the tracker's own manager deletes it and keeps it in use |
| Tracking.SetManager | src/QtGoogleAnalytics.cpp:146-159 | corrected: a deleted manager is the old, owned one and never the one in use; null or the current manager changes nothing |
| Tracking.SetManagerAgreesElsewhere | src/QtGoogleAnalytics.cpp:146-159 | the correction agrees with the code for every other argument |
| Tracking.SubmitKeepsPartition | src/QtGoogleAnalytics.cpp:196-217 | a new request's handle is neither pending nor finished, and the pending/finished partition extends to it |
| Tracking.FinishKeepsPartition | src/QtGoogleAnalytics.cpp:228-238 | finishing a pending reply moves it from pending to finished and keeps the partition |
| Tracking.PrepareRequest | src/QtGoogleAnalytics.cpp:183-215 | the POST and GET branches build exactly the modelled request, and warn exactly above the size limit |
| Tracking.Tracker.constructor | src/QtGoogleAnalytics.cpp:128-134 | defaults: an owned manager, empty tracking ID, "QtGoogleAnalyticsTracker/1.0", the http endpoint, client ID "QtGoogleAnalytics", POST, no cache busting, nothing pending |
| Tracking.Tracker.SetNetworkAccessManager | src/QtGoogleAnalytics.cpp:146-159 | the manager state and the deleted manager are those of the corrected SetManager |
| Tracking.Tracker.SetTrackingID | src/QtGoogleAnalytics.cpp:242-251 | the tracking ID becomes the input when it matches one of the prefixes UA, YT or MO, a dash, digits, a dash and digits, without regard to case, and "" otherwise |
| Tracking.Tracker.TrackingID | src/QtGoogleAnalytics.cpp:253-256 | the tracking ID read back is "" or well formed |
| Tracking.Tracker.SetUserAgent | src/QtGoogleAnalytics.cpp:258-264 | a non-empty user agent is stored; "" keeps the old one |
| Tracking.Tracker.UserAgent | src/QtGoogleAnalytics.cpp:266-269 | the user agent is never empty |
| Tracking.Tracker.SetEndpoint | src/QtGoogleAnalytics.cpp:271-277 | a valid URL is stored; an invalid one keeps the old endpoint |
| Tracking.Tracker.SetClientID | src/QtGoogleAnalytics.cpp:284-291 | a non-empty client ID is stored; "" keeps the old one |
| Tracking.Tracker.ClientID | src/QtGoogleAnalytics.cpp:293-296 | the client ID is never empty |
| Tracking.Tracker.SetOperation | src/QtGoogleAnalytics.cpp:298-309 | POST and GET are stored; any other operation keeps the old one |
| Tracking.Tracker.CurrentOperation | src/QtGoogleAnalytics.cpp:311-314 | the operation is always POST or GET |
| Tracking.Tracker.SetCacheBusting | src/QtGoogleAnalytics.cpp:316-319 | the flag becomes the input |
| Tracking.Tracker.TrackQuery | src/QtGoogleAnalytics.cpp:181-219 | exactly one request, the one built for the current settings, is submitted, its handle becomes pending, and the warning is that request's size warning |
| Tracking.Tracker.TrackParameters | src/QtGoogleAnalytics.cpp:166-179 | an invalid hit submits nothing; a valid one submits the request for the items with v, tid and cid appended |
| Tracking.Tracker.OnFinished | src/QtGoogleAnalytics.cpp:226-240 | tracked is emitted exactly for a pending reply, which then leaves the pending set; an unknown or finished reply changes nothing and is never reported twice |

## Left out

- Qt networking is not modelled. `QNetworkAccessManager::post`/`get`, `QNetworkReply`, `deleteLater`, the error string and the signal wiring (`connectSignals`) are I/O. Submitting a request means recording it and giving its reply a fresh handle.
- `QUrlQuery::toString(QUrl::FullyEncoded)` is modelled as percent-encoding outside the unreserved set of section 2.3 of RFC 3986. Qt's encoder escapes a slightly different set of characters, so exact lengths, and with them the exact warning thresholds, can differ from Qt's. Qt's `QUrlQuery` also leaves '+' and existing "%hh" sequences as written, so under Qt a value "%41" reaches the server as "A" and a '+' as a space; the facts that a query or body decodes to exactly its items (UrlEncoding.DecodeComponent, UrlEncoding.QueryRoundTrip, Requests.PostRequest, Requests.GetRequest) hold for the modelled encoder, not for Qt's.
- `QUrl` is a value of scheme, the text up to the query, and the query. `QUrl::isValid` is a boolean parameter of `Tracking.Tracker.SetEndpoint`.
- `QRegExp`: `\d` and case-insensitive matching are taken over ASCII only. The `\b` anchors hold trivially for an exact match of these patterns.
- `QString::toLongLong` is modelled without whitespace skipping. `isInteger` compares the text with its canonical form, so its verdict does not depend on that.
- `qrand()` is the parameter `rand`, and each `qWarning` is a boolean result.
- The uninitialised `QtGAConfiguration::m_anonymizeIP`, and `QtGA::m_nam` when the parent is not a manager, take an arbitrary first value.
- `QtGA::track` is commented out in the source, so it is not modelled, and neither is any use of the session flag.
- `QtGAValue` holding a bool prints "true" or "false" (the `QVariant` conversion). This is modelled in `QtGATypes.Value.ToString` but carries no separate lemma.
- The tests' mock network manager (tests/testnetworkaccessmanager.cpp) is not modelled. tests/tests.cpp calls a `QtGA::setTrackingID` that does not exist; only its tracking-ID examples are used, in `Configuration.TrackingIDAccepts` and `Configuration.TrackingIDRejects`.
- The getters are functions that return their field. In a class, the frames and the setter postconditions state that a getter returns the last stored value, so the plain getters carry no contract of their own.
- Tracking.Tracker.TrackQuery: `m_operation` can hold only POST or GET (constructor and `setOperation`), so the neither-branch of `track(QUrlQuery)` (send nothing) is excluded by the class invariant rather than modelled.
- Tracking.PrepareRequest is the request-building half of `track(QUrlQuery)`, split out of `TrackQuery`. The method pair together is the source function.
- Custom metrics ("cm" followed by digits) are not value-checked by `isValidHit`; the source leaves that check commented out.
- The QtGoogleAnalytics.h header's class name differs from the source's `QtGoogleAnalytics::Tracker`; the model follows the .cpp file.

## Findings

| source | as written | input that shows it | evidently intended | confidence | as-written member | corrected member |
|---|---|---|---|---|---|---|
| src/QtGoogleAnalytics.cpp:153-157 | `setNetworkAccessManager` deletes the current manager when the tracker owns it, then stores `nam`, and does not check whether `nam` is that same manager | `t.setNetworkAccessManager(t.networkAccessManager())` on a freshly constructed tracker: the tracker's own manager is deleted, then kept as `m_nam`, and `connectSignals` runs on the freed object | passing the current manager changes nothing | not executed | Tracking.AsWrittenUsesDeletedManager (on Tracking.SetManagerAsWritten) | Tracking.SetManager (used by Tracking.Tracker.SetNetworkAccessManager) |
