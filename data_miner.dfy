/**
 The deterministic parts of `DataMiner`: normalising the `age` field of the
 record the service extracted, and the advisory quality check over a record.
 A record is a JSON object as Python sees it after `json.loads`: keys in
 insertion order, each mapped to a dynamically typed value.
 */
module DataMiner {

  import opened Wrappers
  import opened Text
  import opened Completion

  /** A JSON value as Python holds it; only the distinctions the code tests are kept apart. */
  datatype Value =
    | Null
    | Bool(b: bool)
    | Int(i: int)
    | Float(x: real)
    | Str(s: string)
    | List(items: seq<Value>)
    | Dict(entries: seq<(string, Value)>)

  /** A Python dict in insertion order. Lookup and assignment act on the first entry with a key, which for a real dict is its only one. */
  type JsonObject = seq<(string, Value)>

  /** Python truthiness: the falsy values are exactly `None`, `False`, `0`, `0.0`, `""`, `[]` and `{}`. */
  predicate Truthy(v: Value)
    ensures !Truthy(v) <==> v in {Null, Bool(false), Int(0), Float(0.0), Str(""), List([]), Dict([])}
  {
    match v
    case Null => false
    case Bool(b) => b
    case Int(i) => i != 0
    case Float(x) => x != 0.0
    case Str(s) => s != ""
    case List(items) => items != []
    case Dict(entries) => entries != []
  }

  function Keys(o: JsonObject): (ks: seq<string>)
    ensures |ks| == |o|
    ensures forall i :: 0 <= i < |o| ==> ks[i] == o[i].0
  {
    if o == [] then [] else [o[0].0] + Keys(o[1..])
  }

  /** `key in o` and `o[key]`. */
  function Lookup(o: JsonObject, key: string): Option<Value>
  {
    if o == [] then None
    else if o[0].0 == key then Some(o[0].1)
    else Lookup(o[1..], key)
  }

  /** A key is found exactly when it is one of the record's keys. */
  lemma {:induction false} LookupFindsKeys(o: JsonObject, key: string)
    ensures Lookup(o, key).Some? <==> key in Keys(o)
  {
    if o != [] {
      assert Keys(o) == [o[0].0] + Keys(o[1..]);
      LookupFindsKeys(o[1..], key);
    }
  }

  /** `o[key] = v`: an existing key keeps its place, a new key goes last. */
  function Assign(o: JsonObject, key: string, v: Value): JsonObject
  {
    if o == [] then [(key, v)]
    else if o[0].0 == key then [(key, v)] + o[1..]
    else [o[0]] + Assign(o[1..], key, v)
  }

  /** After `o[key] = v`, looking up `key` gives `v` and every other key gives what it gave before. */
  lemma {:induction false} AssignLookup(o: JsonObject, key: string, v: Value, k: string)
    ensures Lookup(Assign(o, key, v), k) == if k == key then Some(v) else Lookup(o, k)
  {
    if o != [] {
      var r := Assign(o, key, v);
      if o[0].0 == key {
        assert r[1..] == o[1..];
      } else {
        assert r[1..] == Assign(o[1..], key, v);
        AssignLookup(o[1..], key, v, k);
      }
    }
  }

  /** Assigning an existing key leaves the order of keys alone; a new key is added last. */
  lemma {:induction false} AssignKeys(o: JsonObject, key: string, v: Value)
    ensures Keys(Assign(o, key, v)) == if key in Keys(o) then Keys(o) else Keys(o) + [key]
  {
    if o != [] {
      var r := Assign(o, key, v);
      assert Keys(o) == [o[0].0] + Keys(o[1..]);
      if o[0].0 == key {
        assert r[1..] == o[1..];
        assert Keys(r) == [key] + Keys(o[1..]);
      } else {
        assert r[1..] == Assign(o[1..], key, v);
        AssignKeys(o[1..], key, v);
        assert Keys(r) == [o[0].0] + Keys(Assign(o[1..], key, v));
        assert key in Keys(o) <==> key in Keys(o[1..]);
      }
    }
  }

  // ---------------------------------------------------------------------------
  // Age normalisation in mine_conversation

  /** The new value of a present `age`: empty or null becomes null, a string is parsed as an integer or becomes null, anything else stays. */
  function NormalizedAge(v: Value): (r: Value)
    ensures !r.Str?
    ensures (v == Null || v == Str("")) ==> r == Null
    ensures v.Str? && IsIntLiteral(v.s) ==> r == Int(ParseInt(v.s).value)
    ensures v.Str? && !IsIntLiteral(v.s) ==> r == Null
    ensures !v.Str? ==> r == v
  {
    if v == Str("") || v == Null then Null
    else if v.Str? then
      match ParseInt(v.s)
      case Some(n) => Int(n)
      case None => Null
    else v
  }

  /** Normalising an already normalised age changes nothing. */
  lemma NormalizedAgeIdempotent(v: Value)
    ensures NormalizedAge(NormalizedAge(v)) == NormalizedAge(v)
  {
  }

  /** An age the service wrote as a decimal string comes back as that integer. */
  lemma NormalizedAgeOfNumeral(n: int)
    ensures NormalizedAge(Str(IntToString(n))) == Int(n)
  {
    ParseIntOfIntToString(n);
  }

  /** The service's "28" for the age becomes the integer 28. */
  lemma AgeStringExample()
    ensures NormalizedAge(Str("28")) == Int(28)
  {
    assert NatToString(28) == "28" by {
      assert NatToString(2) == "2";
    }
    NormalizedAgeOfNumeral(28);
  }

  /** When every value is filled, every key is reported as extracted, in the record's order. */
  lemma {:induction false} AllFilledAllPresent(o: JsonObject)
    requires forall i :: 0 <= i < |o| ==> Filled(o[i].1)
    ensures PresentKeys(o) == Keys(o)
  {
    if o != [] {
      assert forall i :: 0 <= i < |o[1..]| ==> o[1..][i] == o[i + 1];
      AllFilledAllPresent(o[1..]);
    }
  }

  /** The age rule applied to a parsed record, assigning the key in place. */
  method NormalizeAge(found: JsonObject) returns (info: JsonObject)
    ensures Lookup(found, "age").None? ==> info == found
    ensures Lookup(found, "age").Some? ==>
              Keys(info) == Keys(found) && Lookup(info, "age") == Some(NormalizedAge(Lookup(found, "age").value))
    ensures forall k :: k != "age" ==> Lookup(info, k) == Lookup(found, k)
  {
    info := found;
    var age := Lookup(info, "age");
    forall k, v | true ensures Lookup(Assign(found, "age", v), k) == if k == "age" then Some(v) else Lookup(found, k) {
      AssignLookup(found, "age", v, k);
    }
    if age.Some? {
      LookupFindsKeys(found, "age");
      forall v | true ensures Keys(Assign(found, "age", v)) == Keys(found) {
        AssignKeys(found, "age", v);
      }
    }
    if age.Some? && (age.value == Str("") || age.value == Null) {
      info := Assign(info, "age", Null);
    } else if age.Some? && age.value.Str? {
      var parsed := ParseInt(age.value.s);
      if parsed.Some? {
        info := Assign(info, "age", Int(parsed.value));
      } else {
        info := Assign(info, "age", Null);
      }
    }
  }

  const ExtractionPromptPrefix: string := "Extract user information from this conversation:\n\n"

  /** The request mine_conversation sends for a transcript. */
  function ExtractionRequest(model: string, rawChat: string): (r: CompletionRequest)
    ensures r.model == model && r.instruction == ExtractUserDetails
    ensures |r.prompt| == |ExtractionPromptPrefix| + |rawChat|
    ensures r.prompt[..|ExtractionPromptPrefix|] == ExtractionPromptPrefix && r.prompt[|ExtractionPromptPrefix|..] == rawChat
    ensures r.temperature == 0.1 && r.maxTokens == None && r.jsonObjectMode
  {
    CompletionRequest(model, ExtractUserDetails, ExtractionPromptPrefix + rawChat, 0.1, None, true)
  }

  /**
   mine_conversation: the service's reply, already parsed from JSON, with its age
   normalised; a failed call or an unparsable reply gives the empty record.
   */
  method MineConversation(model: string, rawChat: string, service: CompletionRequest -> Result<JsonObject, string>)
    returns (info: JsonObject)
    ensures service(ExtractionRequest(model, rawChat)).Err? ==> info == []
    ensures service(ExtractionRequest(model, rawChat)).Ok? ==>
              var found := service(ExtractionRequest(model, rawChat)).value;
              && (Lookup(found, "age").None? ==> info == found)
              && (Lookup(found, "age").Some? ==>
                    Keys(info) == Keys(found) && Lookup(info, "age") == Some(NormalizedAge(Lookup(found, "age").value)))
              && (forall k :: k != "age" ==> Lookup(info, k) == Lookup(found, k))
  {
    var reply := service(ExtractionRequest(model, rawChat));
    match reply {
      case Err(_) =>
        info := [];
      case Ok(found) =>
        info := NormalizeAge(found);
    }
  }

  // ---------------------------------------------------------------------------
  // check_quality

  const EmailWarning: string := "Email looks suspicious"
  const AgeWarning: string := "Age seems off"
  const PhoneWarning: string := "Phone number length unusual"

  /** The one exception check_quality can raise: `in` or `re.sub` applied to a number. */
  datatype PyError = TypeError

  datatype QualityReport = QualityReport(isValid: bool, errors: seq<string>, warnings: seq<string>, extractedFields: seq<string>)

  /** Neither `None` nor `""`. */
  predicate Filled(v: Value)
  {
    v != Null && v != Str("")
  }

  /** `[k for k, v in o.items() if v not in [None, ""]]`. */
  function PresentKeys(o: JsonObject): (ks: seq<string>)
    ensures |ks| <= |o|
    ensures forall k :: k in ks <==> exists v :: (k, v) in o && Filled(v)
  {
    if o == [] then []
    else
      var rest := PresentKeys(o[1..]);
      assert forall p :: p in o <==> p == o[0] || p in o[1..];
      (if Filled(o[0].1) then [o[0].0] else []) + rest
  }

  /** The present keys keep the record's order: filtering works piecewise. */
  lemma {:induction false} PresentKeysAppend(a: JsonObject, b: JsonObject)
    ensures PresentKeys(a + b) == PresentKeys(a) + PresentKeys(b)
  {
    if a == [] {
      assert a + b == b;
    } else {
      assert (a + b)[0] == a[0];
      assert (a + b)[1..] == a[1..] + b;
      PresentKeysAppend(a[1..], b);
    }
  }

  /** The email rule: Ok(true) when a truthy email lacks "@" or "."; `in` on a number or bool raises. */
  function EmailCheck(o: JsonObject): (r: Result<bool, PyError>)
    ensures var e := Lookup(o, "email");
            r.Err? <==> e.Some? && Truthy(e.value) && (e.value.Bool? || e.value.Int? || e.value.Float?)
    ensures var e := Lookup(o, "email");
            (e.None? || !Truthy(e.value)) ==> r == Ok(false)
    ensures var e := Lookup(o, "email");
            e.Some? && e.value.Str? ==> (r == Ok(true) <==> e.value.s != "" && ('@' !in e.value.s || '.' !in e.value.s))
    ensures var e := Lookup(o, "email");
            e.Some? && Truthy(e.value) && e.value.List? ==> r == Ok(Str("@") !in e.value.items || Str(".") !in e.value.items)
    ensures var e := Lookup(o, "email");
            e.Some? && Truthy(e.value) && e.value.Dict? ==>
              r == Ok("@" !in Keys(e.value.entries) || "." !in Keys(e.value.entries))
  {
    match Lookup(o, "email")
    case None => Ok(false)
    case Some(v) =>
      if !Truthy(v) then Ok(false)
      else match v
        case Str(s) => Ok('@' !in s || '.' !in s)
        case List(items) => Ok(Str("@") !in items || Str(".") !in items)
        case Dict(entries) => Ok("@" !in Keys(entries) || "." !in Keys(entries))
        case _ => Err(TypeError)
  }

  /** `isinstance(v, int)`, which bools pass too, and the integer they stand for. */
  predicate IsPyInt(v: Value)
  {
    v.Int? || v.Bool?
  }

  function PyIntValue(v: Value): int
    requires IsPyInt(v)
  {
    if v.Int? then v.i else if v.b then 1 else 0
  }

  /** The age rule: a truthy age that is not an int, or lies outside 0..150. */
  predicate AgeSuspicious(o: JsonObject)
    ensures AgeSuspicious(o) ==> Lookup(o, "age").Some? && Truthy(Lookup(o, "age").value)
    ensures var a := Lookup(o, "age");
            a.Some? && a.value.Int? ==> (AgeSuspicious(o) <==> a.value.i < 0 || a.value.i > 150)
    ensures var a := Lookup(o, "age");
            a.Some? && a.value.Bool? ==> !AgeSuspicious(o)
    ensures var a := Lookup(o, "age");
            a.Some? && !a.value.Int? && !a.value.Bool? ==> (AgeSuspicious(o) <==> Truthy(a.value))
  {
    match Lookup(o, "age")
    case None => false
    case Some(v) => Truthy(v) && (!IsPyInt(v) || PyIntValue(v) < 0 || PyIntValue(v) > 150)
  }

  /** The phone rule: a truthy phone whose digit count is below 7 or above 15; `re.sub` on a non-string raises. */
  function PhoneCheck(o: JsonObject): (r: Result<bool, PyError>)
    ensures var p := Lookup(o, "phone");
            r.Err? <==> p.Some? && Truthy(p.value) && !p.value.Str?
    ensures var p := Lookup(o, "phone");
            p.Some? && p.value.Str? ==>
              (r == Ok(true) <==> p.value.s != "" && (|DigitsOnly(p.value.s)| < 7 || |DigitsOnly(p.value.s)| > 15))
    ensures var p := Lookup(o, "phone");
            (p.None? || !Truthy(p.value)) ==> r == Ok(false)
  {
    match Lookup(o, "phone")
    case None => Ok(false)
    case Some(v) =>
      if !Truthy(v) then Ok(false)
      else match v
        case Str(s) => Ok(|DigitsOnly(s)| < 7 || |DigitsOnly(s)| > 15)
        case _ => Err(TypeError)
  }

  /** The warnings of a record whose checks do not raise, in the fixed order email, age, phone. */
  function Warnings(o: JsonObject): (ws: seq<string>)
    requires EmailCheck(o).Ok? && PhoneCheck(o).Ok?
    ensures forall w :: w in ws ==> w == EmailWarning || w == AgeWarning || w == PhoneWarning
  {
    (if EmailCheck(o).value then [EmailWarning] else [])
    + (if AgeSuspicious(o) then [AgeWarning] else [])
    + (if PhoneCheck(o).value then [PhoneWarning] else [])
  }

  /** Position of a warning in the fixed order. */
  function WarningRank(w: string): nat
  {
    if w == EmailWarning then 0 else if w == AgeWarning then 1 else 2
  }

  /**
   Each warning is there exactly when its rule fires, at most once, in the
   order email, age, phone; so there are at most three.
   */
  lemma WarningsShape(o: JsonObject)
    requires EmailCheck(o).Ok? && PhoneCheck(o).Ok?
    ensures EmailWarning in Warnings(o) <==> EmailCheck(o).value
    ensures AgeWarning in Warnings(o) <==> AgeSuspicious(o)
    ensures PhoneWarning in Warnings(o) <==> PhoneCheck(o).value
    ensures forall i, j :: 0 <= i < j < |Warnings(o)| ==> WarningRank(Warnings(o)[i]) < WarningRank(Warnings(o)[j])
    ensures |Warnings(o)| <= 3
  {
  }

  /** An age of zero is falsy and so never checked. */
  lemma ZeroAgeNeverWarns(o: JsonObject)
    requires Lookup(o, "age") == Some(Int(0))
    ensures !AgeSuspicious(o)
  {
  }

  /** The record with a malformed email, an age of 200 and a three-digit phone draws all three warnings. */
  lemma AllThreeWarnings()
    ensures var o := [("email", Str("bad-email")), ("age", Int(200)), ("phone", Str("123"))];
            EmailCheck(o).Ok? && PhoneCheck(o).Ok? && Warnings(o) == [EmailWarning, AgeWarning, PhoneWarning]
  {
    var o: JsonObject := [("email", Str("bad-email")), ("age", Int(200)), ("phone", Str("123"))];
    assert Lookup(o, "email") == Some(Str("bad-email"));
    assert '.' !in "bad-email";
    assert EmailCheck(o) == Ok(true);
    assert Lookup(o[1..], "age") == Some(Int(200));
    assert AgeSuspicious(o);
    assert Lookup(o[2..], "phone") == Some(Str("123"));
    assert |DigitsOnly("123")| <= 3;
    assert PhoneCheck(o) == Ok(true);
  }

  /**
   check_quality: never invalid and never an error; warnings per the three
   rules; the fields with a value. A number in the email or a non-string in the
   phone makes the Python code raise, which is the `Err` outcome.
   */
  method CheckQuality(info: JsonObject) returns (r: Result<QualityReport, PyError>)
    ensures r.Err? <==> EmailCheck(info).Err? || PhoneCheck(info).Err?
    ensures r.Ok? ==> r.value.isValid && r.value.errors == []
    ensures r.Ok? ==> r.value.warnings == Warnings(info)
    ensures r.Ok? ==> r.value.extractedFields == PresentKeys(info)
  {
    var extractedFields := PresentKeys(info);
    var warnings: seq<string> := [];
    var email := EmailCheck(info);
    if email.Err? {
      return Err(email.error);
    }
    warnings := warnings + if email.value then [EmailWarning] else [];
    warnings := warnings + if AgeSuspicious(info) then [AgeWarning] else [];
    var phone := PhoneCheck(info);
    if phone.Err? {
      return Err(phone.error);
    }
    warnings := warnings + if phone.value then [PhoneWarning] else [];
    r := Ok(QualityReport(true, [], warnings, extractedFields));
  }
}
