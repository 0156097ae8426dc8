/**
 * The hit validator of the tracker (namespace QtGoogleAnalytics): the three value checks
 * isBoolean, isInteger and isCurrency, and isValidHit, which accepts a parameter list only when
 * it names a known hit type, carries the keys that type requires, and every typed key holds a
 * value of its type.
 */
module HitValidation {
  import opened Wrappers
  import opened Text
  import opened QtGATypes
  import ParameterCatalog

  /** Tracker::ParameterList: an ordered list of (key, value) pairs; keys may repeat. */
  type ParameterList = seq<(string, string)>

  /** isBoolean: the text is "1" or "0". */
  predicate IsBoolean(value: string) {
    value == "1" || value == "0"
  }

  /** isInteger: the text is the canonical form of its own 64-bit parse. */
  predicate IsInteger(value: string) {
    value == Number(ToLongLong(value))
  }

  /** Optional minus sign followed by digits: the -?\d* of the currency pattern. */
  predicate SignedDigits(t: string) {
    AllDigits(t) || (|t| > 0 && t[0] == '-' && AllDigits(t[1..]))
  }

  /**
   * isCurrency: exact match of .*-?\d*\.\d{2,6}: some prefix s[..i], then -?\d* in s[i..j],
   * then the point s[j], then two to six digits up to the end.
   */
  predicate IsCurrency(value: string) {
    exists i, j :: 0 <= i <= j < |value| && SignedDigits(value[i..j]) && value[j] == '.' &&
                   2 <= |value| - j - 1 <= 6 && AllDigits(value[j + 1..])
  }

  /** A point followed by two to six digits at the end of the text. */
  predicate EndsWithDecimals(value: string) {
    exists j :: 0 <= j < |value| && value[j] == '.' && 2 <= |value| - j - 1 <= 6 &&
                AllDigits(value[j + 1..])
  }

  /** The leading .* swallows the optional sign and integer digits: only the decimal tail matters. */
  lemma CurrencyIsDecimalTail(value: string)
    ensures IsCurrency(value) <==> EndsWithDecimals(value)
  {
    if EndsWithDecimals(value) {
      var j :| 0 <= j < |value| && value[j] == '.' && 2 <= |value| - j - 1 <= 6 &&
               AllDigits(value[j + 1..]);
      assert SignedDigits(value[j..j]);
    }
  }

  lemma CurrencyAccepts()
    ensures IsCurrency("-55.00") && IsCurrency("1000.000001") && IsCurrency("x1.00")
  {
    CurrencyIsDecimalTail("-55.00");
    assert "-55.00"[3] == '.' && "-55.00"[4..] == "00";
    CurrencyIsDecimalTail("1000.000001");
    assert "1000.000001"[4] == '.' && "1000.000001"[5..] == "000001";
    CurrencyIsDecimalTail("x1.00");
    assert "x1.00"[2] == '.' && "x1.00"[3..] == "00";
  }

  lemma CurrencyAcceptsCents()
    ensures IsCurrency("12.50")
  {
    CurrencyIsDecimalTail("12.50");
    assert "12.50"[2] == '.' && "12.50"[3..] == "50";
  }

  lemma CurrencyRejects()
    ensures !IsCurrency("foo") && !IsCurrency("1.2345678") && !IsCurrency("1.5") && !IsCurrency("12")
  {
    CurrencyIsDecimalTail("foo");
    CurrencyIsDecimalTail("1.2345678");
    CurrencyIsDecimalTail("1.5");
    CurrencyIsDecimalTail("12");
  }

  /** isInteger holds exactly for the canonical texts of 64-bit integers. */
  lemma IsIntegerIff(value: string)
    ensures IsInteger(value) <==> exists n :: InInt64(n) && Number(n) == value
  {
    if exists n :: InInt64(n) && Number(n) == value {
      var n :| InInt64(n) && Number(n) == value;
      ParseNumber(n);
    }
  }

  /**
   * Canonical texts carry no plus sign, no leading zero and at most 19 digits; a negative one is
   * '-' followed by such digits.
   */
  lemma IntegerShape(value: string)
    requires IsInteger(value)
    ensures |value| > 0 && value[0] != '+'
    ensures |value| > 1 && AllDigits(value) ==> value[0] != '0'
    ensures AllDigits(value) ==> |value| <= 19
    ensures |value| > 0 && value[0] == '-' ==>
              2 <= |value| <= 20 && value[1] != '0' && AllDigits(value[1..])
  {
    var n := ToLongLong(value);
    NumberShape(n);
    if n >= 0 && |value| > 0 {
      assert IsDigit(value[0]);
    }
    if n < 0 && |value| > 0 {
      assert !IsDigit(value[0]);
    }
  }

  lemma IntegerExampleZero()
    ensures IsInteger("0")
  {
    assert Number(0) == "0";
    ParseNumber(0);
  }

  lemma IntegerExampleLarge()
    ensures IsInteger("9876543210")
  {
    assert NatToDecimal(9) == "9";
    assert NatToDecimal(98) == "98";
    assert NatToDecimal(987) == "987";
    assert NatToDecimal(9876) == "9876";
    assert NatToDecimal(98765) == "98765";
    assert NatToDecimal(987654) == "987654";
    assert NatToDecimal(9876543) == "9876543";
    assert NatToDecimal(98765432) == "98765432";
    assert NatToDecimal(987654321) == "987654321";
    assert Number(9876543210) == "9876543210";
    ParseNumber(9876543210);
  }

  lemma IntegerExamplePositive()
    ensures IsInteger("42")
  {
    assert NatToDecimal(4) == "4";
    assert Number(42) == "42";
    ParseNumber(42);
  }

  lemma IntegerExampleNegative()
    ensures IsInteger("-42")
  {
    assert NatToDecimal(4) == "4";
    assert Number(-42) == "-42";
    IsIntegerIff("-42");
  }

  lemma IntegerRejectsText()
    ensures !IsInteger("foo") && !IsInteger("")
  {
    assert ToLongLong("foo") == 0 by { assert !IsDigit("foo"[0]); }
    assert ToLongLong("") == 0;
    assert Number(0) == "0";
  }

  lemma IntegerRejectsPlus()
    ensures !IsInteger("+5")
  {
    if IsInteger("+5") {
      IntegerShape("+5");
    }
  }

  lemma IntegerRejectsLeadingZero()
    ensures !IsInteger("007")
  {
    if IsInteger("007") {
      assert AllDigits("007");
      IntegerShape("007");
    }
  }

  lemma IntegerRejectsOverflow()
    ensures !IsInteger("12345678901234567890")
  {
    var s := "12345678901234567890";
    if IsInteger(s) {
      assert AllDigits(s);
      IntegerShape(s);
    }
  }

  /** Every Boolean text is also an integer text. */
  lemma BooleanIsInteger(value: string)
    requires IsBoolean(value)
    ensures IsInteger(value)
  {
    IsIntegerIff(value);
    if value == "1" {
      assert Number(1) == "1";
    } else {
      assert Number(0) == "0";
    }
  }

  /** The three validation functions of isValidHit. */
  datatype Check = BooleanCheck | CurrencyCheck | IntegerCheck

  predicate Passes(check: Check, value: string) {
    match check
    case BooleanCheck => IsBoolean(value)
    case CurrencyCheck => IsCurrency(value)
    case IntegerCheck => IsInteger(value)
  }

  /** typeValidations: the sixteen keys whose values are checked, and the check of each. */
  const TypeValidations: map<string, Check> := map[
    "aip" := BooleanCheck, "je" := BooleanCheck,
    "tr" := CurrencyCheck, "ts" := CurrencyCheck, "tt" := CurrencyCheck, "ip" := CurrencyCheck,
    "qt" := IntegerCheck, "ev" := IntegerCheck, "iq" := IntegerCheck, "utt" := IntegerCheck,
    "plt" := IntegerCheck, "dns" := IntegerCheck, "pdt" := IntegerCheck, "rrt" := IntegerCheck,
    "tcp" := IntegerCheck, "srt" := IntegerCheck]

  /** validHitTypes: the eight values of "t" that name a hit type. */
  const ValidHitTypes: seq<string> :=
    ["pageview", "appview", "event", "transaction", "item", "social", "exception", "timing"]

  /** requiredPerHitType: the keys a transaction, item or social hit must carry. */
  const RequiredPerHitType: map<string, seq<string>> := map[
    "transaction" := ["ti"],
    "item" := ["ti", "in"],
    "social" := ["sn", "sa", "st"]]

  /** The keys a hit of type h must carry (none for the types without an entry). */
  function RequiredKeys(h: string): seq<string> {
    if h in RequiredPerHitType then RequiredPerHitType[h] else []
  }

  /** The value of the last pair with the given key, as the QHash params keeps it. */
  function LastValue(ps: ParameterList, key: string): (r: Option<string>)
    ensures r.Some? ==> exists i :: 0 <= i < |ps| && ps[i] == (key, r.value)
    decreases |ps|
  {
    if |ps| == 0 then None
    else if ps[|ps| - 1].0 == key then Some(ps[|ps| - 1].1)
    else LastValue(ps[..|ps| - 1], key)
  }

  /** Some pair has the given key. */
  predicate HasKey(ps: ParameterList, key: string) {
    exists i :: 0 <= i < |ps| && ps[i].0 == key
  }

  /** A key has a last value exactly when it occurs at all. */
  lemma {:induction false} LastValueIffHasKey(ps: ParameterList, key: string)
    ensures LastValue(ps, key).Some? <==> HasKey(ps, key)
    decreases |ps|
  {
    if |ps| > 0 && ps[|ps| - 1].0 != key {
      var front := ps[..|ps| - 1];
      LastValueIffHasKey(front, key);
      if HasKey(ps, key) {
        var i :| 0 <= i < |ps| && ps[i].0 == key;
        assert front[i].0 == key;
      }
      if HasKey(front, key) {
        var i :| 0 <= i < |front| && front[i].0 == key;
        assert ps[i].0 == key;
      }
    }
  }

  /** The last value is the value of a pair after which the key does not occur again. */
  lemma {:induction false} LastValueIsLast(ps: ParameterList, key: string)
    requires LastValue(ps, key).Some?
    ensures exists i :: 0 <= i < |ps| && ps[i] == (key, LastValue(ps, key).value) &&
                        forall j :: i < j < |ps| ==> ps[j].0 != key
    decreases |ps|
  {
    var last := |ps| - 1;
    if ps[last].0 != key {
      var front := ps[..last];
      LastValueIsLast(front, key);
      var i :| 0 <= i < |front| && front[i] == (key, LastValue(front, key).value) &&
               forall j :: i < j < |front| ==> front[j].0 != key;
      assert ps[i] == front[i];
      assert forall j :: i < j < |ps| ==> ps[j].0 != key by {
        forall j | i < j < |ps|
          ensures ps[j].0 != key
        {
          if j < last {
            assert ps[j] == front[j];
          }
        }
      }
    }
  }

  /** A pair whose key has a check holds a value that passes it. */
  predicate CorrectlyTyped(p: (string, string)) {
    p.0 in TypeValidations ==> Passes(TypeValidations[p.0], p.1)
  }

  /** allParametersOfCorrectType: every occurrence of a checked key passes its check. */
  predicate AllOfCorrectType(ps: ParameterList) {
    forall i :: 0 <= i < |ps| ==> CorrectlyTyped(ps[i])
  }

  /** Appending a pair sets the last value of its key and keeps the others. */
  lemma LastValueSnoc(ps: ParameterList, p: (string, string), k: string)
    ensures LastValue(ps + [p], k) == if p.0 == k then Some(p.1) else LastValue(ps, k)
  {
    assert (ps + [p])[..|ps|] == ps;
  }

  /** Appending a pair keeps all values well typed exactly when the new pair is. */
  lemma AllOfCorrectTypeSnoc(ps: ParameterList, p: (string, string))
    ensures AllOfCorrectType(ps + [p]) <==> AllOfCorrectType(ps) && CorrectlyTyped(p)
  {
    if AllOfCorrectType(ps + [p]) {
      assert forall i :: 0 <= i < |ps| ==> (ps + [p])[i] == ps[i];
      assert (ps + [p])[|ps|] == p;
    }
  }

  /**
   * The result of isValidHit: "t" is present and its last value is one of validHitTypes, every
   * key that this hit type requires occurs (with any value), and every typed value passes.
   */
  predicate ValidHit(ps: ParameterList) {
    match LastValue(ps, "t")
    case None => false
    case Some(h) =>
      h in ValidHitTypes && (forall k :: k in RequiredKeys(h) ==> HasKey(ps, k)) && AllOfCorrectType(ps)
  }

  /** The QHash params holds, for every key of the list, the last value given to it. */
  ghost predicate HoldsLastValues(params: map<string, string>, ps: ParameterList) {
    (forall k :: k in params <==> LastValue(ps, k).Some?) &&
    (forall k :: k in params ==> params[k] == LastValue(ps, k).value)
  }

  /** params.insert of the next pair keeps params holding the last values. */
  lemma HoldsLastValuesSnoc(params: map<string, string>, ps: ParameterList, p: (string, string))
    requires HoldsLastValues(params, ps)
    ensures HoldsLastValues(params[p.0 := p.1], ps + [p])
  {
    forall k
      ensures LastValue(ps + [p], k) == if p.0 == k then Some(p.1) else LastValue(ps, k)
    {
      LastValueSnoc(ps, p, k);
    }
  }

  /** ValidHit read off a map that holds the last value of every key, as isValidHit does. */
  lemma ValidHitFromLastValues(ps: ParameterList, params: map<string, string>)
    requires HoldsLastValues(params, ps)
    ensures ValidHit(ps) <==>
              "t" in params && params["t"] in ValidHitTypes &&
              (forall j :: 0 <= j < |RequiredKeys(params["t"])| ==> RequiredKeys(params["t"])[j] in params) &&
              AllOfCorrectType(ps)
  {
    if "t" in params {
      var required := RequiredKeys(params["t"]);
      forall j | 0 <= j < |required|
        ensures required[j] in params <==> HasKey(ps, required[j])
      {
        LastValueIffHasKey(ps, required[j]);
      }
    }
  }

  /**
   * isValidHit as written: one pass over the list that fills the hash of last values and
   * folds the type checks, and a second over the required keys of the hit type.
   */
  method IsValidHit(parameters: ParameterList) returns (valid: bool)
    ensures valid == ValidHit(parameters)
  {
    var foundHitType := false;
    var hasAllRequiredParameters := true;
    var allParametersOfCorrectType := true;

    var params: map<string, string> := map[];
    var n := 0;
    while n < |parameters|
      invariant 0 <= n <= |parameters|
      invariant HoldsLastValues(params, parameters[..n])
      invariant allParametersOfCorrectType == AllOfCorrectType(parameters[..n])
    {
      var (key, value) := parameters[n];
      assert parameters[..n + 1] == parameters[..n] + [(key, value)];
      HoldsLastValuesSnoc(params, parameters[..n], (key, value));
      AllOfCorrectTypeSnoc(parameters[..n], (key, value));
      params := params[key := value];
      if key in TypeValidations {
        allParametersOfCorrectType := allParametersOfCorrectType && Passes(TypeValidations[key], value);
      }
      n := n + 1;
    }
    assert parameters[..n] == parameters;

    if "t" in params && params["t"] in ValidHitTypes {
      foundHitType := true;
      var requiredIter := params["t"];
      if requiredIter in RequiredPerHitType {
        var required := RequiredPerHitType[requiredIter];
        assert required == RequiredKeys(requiredIter);
        var m := 0;
        while m < |required|
          invariant 0 <= m <= |required|
          invariant hasAllRequiredParameters == forall j :: 0 <= j < m ==> required[j] in params
        {
          hasAllRequiredParameters := hasAllRequiredParameters && required[m] in params;
          m := m + 1;
        }
      } else {
        assert RequiredKeys(requiredIter) == [];
      }
      assert hasAllRequiredParameters ==
             forall j :: 0 <= j < |RequiredKeys(requiredIter)| ==> RequiredKeys(requiredIter)[j] in params;
    }
    ValidHitFromLastValues(parameters, params);
    valid := foundHitType && hasAllRequiredParameters && allParametersOfCorrectType;
  }

  /** Without a "t" pair, or when its last value names no hit type, the hit is invalid. */
  lemma HitTypeIsNeeded(ps: ParameterList)
    ensures !HasKey(ps, "t") ==> !ValidHit(ps)
    ensures LastValue(ps, "t").Some? && LastValue(ps, "t").value !in ValidHitTypes ==> !ValidHit(ps)
  {
    LastValueIffHasKey(ps, "t");
  }

  /**
   * The required keys per hit type: a transaction needs ti, an item ti and in, a social hit
   * sn, sa and st; the other five types need none. Presence is enough, whatever the value.
   */
  lemma RequiredKeysPerHitType(ps: ParameterList)
    ensures LastValue(ps, "t") == Some("transaction") ==>
              (ValidHit(ps) <==> HasKey(ps, "ti") && AllOfCorrectType(ps))
    ensures LastValue(ps, "t") == Some("item") ==>
              (ValidHit(ps) <==> HasKey(ps, "ti") && HasKey(ps, "in") && AllOfCorrectType(ps))
    ensures LastValue(ps, "t") == Some("social") ==>
              (ValidHit(ps) <==> HasKey(ps, "sn") && HasKey(ps, "sa") && HasKey(ps, "st") &&
                                 AllOfCorrectType(ps))
    ensures LastValue(ps, "t").Some? &&
            LastValue(ps, "t").value in ["pageview", "appview", "event", "exception", "timing"] ==>
              (ValidHit(ps) <==> AllOfCorrectType(ps))
  {
    assert RequiredKeys("item") == ["ti", "in"];
    assert RequiredKeys("social") == ["sn", "sa", "st"];
  }

  /** A single ill-typed occurrence invalidates the hit, even when a later pair corrects it. */
  lemma IllTypedValueInvalidates(ps: ParameterList, i: nat)
    requires i < |ps| && !CorrectlyTyped(ps[i])
    ensures !ValidHit(ps)
  {
  }

  /** A key outside typeValidations, other than "t" and required by no hit type. */
  predicate IgnoredKey(key: string) {
    key !in TypeValidations && key != "t" && !IsRequiredSomewhere(key)
  }

  /** The keys that some hit type requires. */
  predicate IsRequiredSomewhere(key: string) {
    key == "ti" || key == "in" || key == "sn" || key == "sa" || key == "st"
  }

  lemma RequiredKeysAreRequiredSomewhere(h: string, k: string)
    requires k in RequiredKeys(h)
    ensures IsRequiredSomewhere(k)
  {
  }

  /** Inserting a pair never changes whether another key occurs. */
  lemma HasKeyAfterInsert(ps: ParameterList, i: nat, p: (string, string), k: string)
    requires i <= |ps| && k != p.0
    ensures HasKey(ps[..i] + [p] + ps[i..], k) <==> HasKey(ps, k)
  {
    var qs := ps[..i] + [p] + ps[i..];
    if HasKey(ps, k) {
      var j :| 0 <= j < |ps| && ps[j].0 == k;
      if j < i {
        assert qs[j] == ps[j];
      } else {
        assert qs[j + 1] == ps[j];
      }
    }
    if HasKey(qs, k) {
      var j :| 0 <= j < |qs| && qs[j].0 == k;
      if j < i {
        assert qs[j] == ps[j];
      } else {
        assert j != i;
        assert qs[j] == ps[j - 1];
      }
    }
  }

  /** Inserting a pair that passes its check keeps the whole list exactly as well typed. */
  lemma AllOfCorrectTypeAfterInsert(ps: ParameterList, i: nat, p: (string, string))
    requires i <= |ps| && CorrectlyTyped(p)
    ensures AllOfCorrectType(ps[..i] + [p] + ps[i..]) <==> AllOfCorrectType(ps)
  {
    var qs := ps[..i] + [p] + ps[i..];
    if AllOfCorrectType(ps) {
      forall j | 0 <= j < |qs|
        ensures CorrectlyTyped(qs[j])
      {
        if j < i {
          assert qs[j] == ps[j];
        } else if j > i {
          assert qs[j] == ps[j - 1];
        }
      }
    }
    if AllOfCorrectType(qs) {
      forall j | 0 <= j < |ps|
        ensures CorrectlyTyped(ps[j])
      {
        if j < i {
          assert qs[j] == ps[j];
        } else {
          assert qs[j + 1] == ps[j];
        }
      }
    }
  }

  /** Inserting a pair with an ignored key anywhere into the list leaves the verdict unchanged. */
  lemma IgnoredKeyDoesNotMatter(ps: ParameterList, i: nat, key: string, value: string)
    requires i <= |ps| && IgnoredKey(key)
    ensures ValidHit(ps[..i] + [(key, value)] + ps[i..]) == ValidHit(ps)
  {
    var qs := ps[..i] + [(key, value)] + ps[i..];
    LastValueAfterInsert(ps, i, key, value, "t");
    AllOfCorrectTypeAfterInsert(ps, i, (key, value));
    forall k | IsRequiredSomewhere(k)
      ensures HasKey(qs, k) <==> HasKey(ps, k)
    {
      HasKeyAfterInsert(ps, i, (key, value), k);
    }
    if LastValue(ps, "t").Some? {
      var h := LastValue(ps, "t").value;
      forall k | k in RequiredKeys(h)
        ensures HasKey(qs, k) <==> HasKey(ps, k)
      {
        RequiredKeysAreRequiredSomewhere(h, k);
      }
    }
  }

  /** Inserting a pair never changes the last value of another key. */
  lemma {:induction false} LastValueAfterInsert(ps: ParameterList, i: nat, key: string, value: string, k: string)
    requires i <= |ps| && k != key
    ensures LastValue(ps[..i] + [(key, value)] + ps[i..], k) == LastValue(ps, k)
    decreases |ps|
  {
    var qs := ps[..i] + [(key, value)] + ps[i..];
    if i == |ps| {
      assert qs == ps + [(key, value)];
      LastValueSnoc(ps, (key, value), k);
    } else {
      var last := |ps| - 1;
      var init := ps[..last];
      var inner := init[..i] + [(key, value)] + init[i..];
      assert init[..i] == ps[..i];
      assert init[i..] + [ps[last]] == ps[i..];
      assert qs == inner + [ps[last]];
      assert ps == init + [ps[last]];
      LastValueAfterInsert(init, i, key, value, k);
      LastValueSnoc(inner, ps[last], k);
      LastValueSnoc(init, ps[last], k);
    }
  }

  /** A suffix that holds the key fixes its last value, whatever comes before. */
  lemma {:induction false} LastValueOfSuffix(front: ParameterList, qs: ParameterList, k: string)
    requires LastValue(qs, k).Some?
    ensures LastValue(front + qs, k) == LastValue(qs, k)
    decreases |qs|
  {
    var all := front + qs;
    assert all[|all| - 1] == qs[|qs| - 1];
    if qs[|qs| - 1].0 != k {
      var init := qs[..|qs| - 1];
      assert all[..|all| - 1] == front + init;
      LastValueOfSuffix(front, init, k);
    }
  }

  /**
   * Only the last "t" counts: an earlier "t", wherever it stands before a later one, can be
   * dropped without changing the verdict.
   */
  lemma LastHitTypeWins(ps: ParameterList, x: string, qs: ParameterList)
    requires LastValue(qs, "t").Some?
    ensures ValidHit(ps + [("t", x)] + qs) == ValidHit(ps + qs)
  {
    var short := ps + qs;
    var long := ps + [("t", x)] + qs;
    assert short[..|ps|] == ps && short[|ps|..] == qs;
    assert long == short[..|ps|] + [("t", x)] + short[|ps|..];
    LastValueOfSuffix(ps + [("t", x)], qs, "t");
    LastValueOfSuffix(ps, qs, "t");
    AllOfCorrectTypeAfterInsert(short, |ps|, ("t", x));
    var h := LastValue(qs, "t").value;
    forall k | k in RequiredKeys(h)
      ensures HasKey(long, k) <==> HasKey(short, k)
    {
      RequiredKeysAreRequiredSomewhere(h, k);
      HasKeyAfterInsert(short, |ps|, ("t", x), k);
    }
  }

  /** The simplest case: of two "t" pairs at the end, the first changes nothing. */
  lemma LastOfTwoHitTypesWins(ps: ParameterList, first: string, second: string)
    ensures ValidHit(ps + [("t", first), ("t", second)]) == ValidHit(ps + [("t", second)])
  {
    assert LastValue([("t", second)], "t") == Some(second);
    LastHitTypeWins(ps, first, [("t", second)]);
    assert ps + [("t", first)] + [("t", second)] == ps + [("t", first), ("t", second)];
  }

  lemma PageViewExample()
    ensures ValidHit([("t", "pageview")])
  {
    assert LastValue([("t", "pageview")], "t") == Some("pageview");
  }

  /** The values of the event example pass their checks. */
  lemma EventExampleIsTyped()
    ensures AllOfCorrectType([("t", "event"), ("ev", "42")])
  {
    var ps := [("t", "event"), ("ev", "42")];
    IntegerExamplePositive();
    assert CorrectlyTyped(ps[0]) && CorrectlyTyped(ps[1]);
  }

  lemma EventExample()
    ensures ValidHit([("t", "event"), ("ev", "42")])
  {
    var ps := [("t", "event"), ("ev", "42")];
    assert LastValue(ps, "t") == Some("event") by { assert ps[..1] == [("t", "event")]; }
    EventExampleIsTyped();
  }

  lemma IllTypedEventExample()
    ensures !ValidHit([("t", "event"), ("ev", "4.2")])
  {
    var ps := [("t", "event"), ("ev", "4.2")];
    assert ToLongLong("4.2") == 0 by { assert !IsDigit("4.2"[1]); }
    assert Number(0) == "0";
    assert !CorrectlyTyped(ps[1]);
  }

  lemma MissingTransactionIDExample()
    ensures !ValidHit([("t", "transaction")])
  {
    var ps := [("t", "transaction")];
    assert LastValue(ps, "t") == Some("transaction");
    assert RequiredKeys("transaction") == ["ti"];
    assert !HasKey(ps, "ti");
  }

  /** The values of the transaction example pass their checks. */
  lemma TransactionExampleIsTyped()
    ensures AllOfCorrectType([("t", "transaction"), ("tr", "12.50"), ("ti", "T1")])
  {
    var ps := [("t", "transaction"), ("tr", "12.50"), ("ti", "T1")];
    CurrencyAcceptsCents();
    assert CorrectlyTyped(ps[0]) && CorrectlyTyped(ps[1]) && CorrectlyTyped(ps[2]);
  }

  lemma TransactionExample()
    ensures ValidHit([("t", "transaction"), ("tr", "12.50"), ("ti", "T1")])
  {
    var ps := [("t", "transaction"), ("tr", "12.50"), ("ti", "T1")];
    assert LastValue(ps, "t") == Some("transaction") by {
      assert ps[..2] == [("t", "transaction"), ("tr", "12.50")];
      assert ps[..2][..1] == [("t", "transaction")];
    }
    assert RequiredKeys("transaction") == ["ti"];
    assert HasKey(ps, "ti") by { assert ps[2].0 == "ti"; }
    TransactionExampleIsTyped();
  }

  lemma UnknownHitTypeExample()
    ensures !ValidHit([("t", "pageview"), ("t", "unknown")])
    ensures !ValidHit([("tid", "UA-1-1")])
  {
    assert LastValue([("t", "pageview"), ("t", "unknown")], "t") == Some("unknown");
    assert LastValue([("tid", "UA-1-1")], "t") == None by {
      assert [("tid", "UA-1-1")][..0] == [];
    }
  }

  /** The wire name of each hit type, the values of "t". */
  function WireName(t: Type): string {
    match t
    case PageView => "pageview"
    case AppView => "appview"
    case Event => "event"
    case Transaction => "transaction"
    case Item => "item"
    case Social => "social"
    case Exception => "exception"
    case Timing => "timing"
  }

  /** validHitTypes lists exactly the wire names of the eight hit types, one each. */
  lemma ValidHitTypesAreTheTypes()
    ensures forall h :: h in ValidHitTypes <==> exists t: Type :: WireName(t) == h
    ensures forall t: Type, u: Type :: WireName(t) == WireName(u) ==> t == u
  {
    assert WireName(PageView) == ValidHitTypes[0] && WireName(AppView) == ValidHitTypes[1];
    assert WireName(Event) == ValidHitTypes[2] && WireName(Transaction) == ValidHitTypes[3];
    assert WireName(Item) == ValidHitTypes[4] && WireName(Social) == ValidHitTypes[5];
    assert WireName(Exception) == ValidHitTypes[6] && WireName(Timing) == ValidHitTypes[7];
  }

  /** The catalog's value type that a check corresponds to. */
  function CheckedType(check: Check): ValueType {
    match check
    case BooleanCheck => Boolean
    case CurrencyCheck => Currency
    case IntegerCheck => Integer
  }

  /** The row of the catalog keyed by each typed key of isValidHit. */
  function TypedKeyRow(key: string): nat
    requires key in TypeValidations
  {
    match key
    case "aip" => 2 case "je" => 21 case "tr" => 39 case "ts" => 40 case "tt" => 41
    case "ip" => 43 case "qt" => 3 case "ev" => 36 case "iq" => 44 case "utt" => 53
    case "plt" => 55 case "dns" => 56 case "pdt" => 57 case "rrt" => 58 case "tcp" => 59
    case _ => 60
  }

  /*
   * Every key that isValidHit checks is the key of a catalog row, shown for the Boolean,
   * Currency and Integer checks in turn.
   */
  lemma BooleanTypedKeysHaveRows(key: string)
    requires key in TypeValidations && TypeValidations[key] == BooleanCheck
    ensures TypedKeyRow(key) < ParameterCatalog.RowCount
    ensures ParameterCatalog.ParameterTable[TypedKeyRow(key)].textualRepresentation == key
  {
  }

  lemma CurrencyTypedKeysHaveRows(key: string)
    requires key in TypeValidations && TypeValidations[key] == CurrencyCheck
    ensures TypedKeyRow(key) < ParameterCatalog.RowCount
    ensures ParameterCatalog.ParameterTable[TypedKeyRow(key)].textualRepresentation == key
  {
  }

  lemma IntegerTypedKeysHaveRows(key: string)
    requires key in TypeValidations && TypeValidations[key] == IntegerCheck
    ensures TypedKeyRow(key) < ParameterCatalog.RowCount
    ensures ParameterCatalog.ParameterTable[TypedKeyRow(key)].textualRepresentation == key
  {
  }

  /** Every key that isValidHit checks is the key of a catalog row. */
  lemma TypedKeysHaveRows(key: string)
    requires key in TypeValidations
    ensures TypedKeyRow(key) < ParameterCatalog.RowCount
    ensures ParameterCatalog.ParameterTable[TypedKeyRow(key)].textualRepresentation == key
  {
    match TypeValidations[key]
    case BooleanCheck => BooleanTypedKeysHaveRows(key);
    case CurrencyCheck => CurrencyTypedKeysHaveRows(key);
    case IntegerCheck => IntegerTypedKeysHaveRows(key);
  }

  /** Each check of isValidHit is the value type that the catalog gives that key. */
  lemma TypeValidationsAgreeWithCatalog()
    ensures forall i :: 0 <= i < |ParameterCatalog.ParameterTable| &&
                        ParameterCatalog.ParameterTable[i].textualRepresentation in TypeValidations ==>
              ParameterCatalog.ParameterTable[i].valueType ==
              CheckedType(TypeValidations[ParameterCatalog.ParameterTable[i].textualRepresentation])
  {
    forall i | 0 <= i < |ParameterCatalog.ParameterTable| &&
               ParameterCatalog.ParameterTable[i].textualRepresentation in TypeValidations
      ensures ParameterCatalog.ParameterTable[i].valueType ==
              CheckedType(TypeValidations[ParameterCatalog.ParameterTable[i].textualRepresentation])
    {
      ParameterCatalog.ValueTypeByKey(i);
    }
  }

  /**
   * Each key that requiredPerHitType demands of a hit type is the key of a catalog row that is
   * marked required and allows that hit type.
   */
  lemma RequiredKeysAgreeWithCatalog(t: Type, key: string)
    requires key in RequiredKeys(WireName(t))
    ensures exists i :: 0 <= i < |ParameterCatalog.ParameterTable| &&
              ParameterCatalog.ParameterTable[i].textualRepresentation == key &&
              ParameterCatalog.ParameterTable[i].required &&
              Supports(ParameterCatalog.ParameterTable[i].supportedTypes, t)
  {
    var i := if key == "ti" then 37 else if key == "in" then 42 else if key == "sn" then 48
             else if key == "sa" then 49 else 50;
    assert ParameterCatalog.ParameterTable[i].textualRepresentation == key;
  }
}
