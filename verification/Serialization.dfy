/**
  The tagged JSON codec of the bus (kontiki/messaging/serialization.py), at the level of JSON
  trees. Python values and JSON trees are untyped there, so the fields of an RpcReturn hold
  arbitrary values here too.
 */
module Serialization {
  import opened Wrappers
  import Base64

  datatype Json =
    | JNull
    | JBool(flag: bool)
    | JNum(num: real)
    | JStr(text: string)
    | JArr(items: seq<Json>)
    | JObj(fields: map<string, Json>)

  datatype ErrorType = NONE | CLIENT | SERVER

  datatype RpcReturn =
    RpcReturn(success: Value, result: Value, message: Value, errorType: ErrorType, errorCode: Value)

  datatype Value =
    | Null
    | Bool(flag: bool)
    | Num(num: real)
    | Str(text: string)
    | Bytes(data: seq<Base64.Byte>)
    | List(items: seq<Value>)
    | Dict(fields: map<string, Value>)
    | Return(ret: RpcReturn)

  const RPC_TAG := "__rpcreturn__"
  const BYTES_TAG := "__bytes__"

  function NameOf(e: ErrorType): string {
    match e
    case NONE => "NONE"
    case CLIENT => "CLIENT"
    case SERVER => "SERVER"
  }

  function NamedType(name: string): Option<ErrorType> {
    if name == "NONE" then Some(NONE)
    else if name == "CLIENT" then Some(CLIENT)
    else if name == "SERVER" then Some(SERVER)
    else None
  }

  /** Serializer.dumps: lists and string-keyed mappings natively, the rest by the default encoder. */
  function Dumps(v: Value): Json {
    match v
    case Null => JNull
    case Bool(b) => JBool(b)
    case Num(n) => JNum(n)
    case Str(s) => JStr(s)
    case Bytes(d) => JObj(map[BYTES_TAG := JBool(true), "data" := JStr(Base64.Encode(d))])
    case List(items) => JArr(seq(|items|, i requires 0 <= i < |items| => Dumps(items[i])))
    case Dict(m) => JObj(map k | k in m :: Dumps(m[k]))
    case Return(r) =>
      JObj(ReturnFields(Dumps(r.success), Dumps(r.result), Dumps(r.message),
                        JStr(NameOf(r.errorType)), Dumps(r.errorCode)))
  }

  function ReturnFields(success: Json, result: Json, message: Json, errorType: Json, errorCode: Json)
    : (fields: map<string, Json>)
    ensures fields.Keys == {RPC_TAG, "success", "result", "message", "error_type", "error_code"}
    ensures fields[RPC_TAG] == JBool(true)
    ensures fields["success"] == success && fields["result"] == result
    ensures fields["message"] == message && fields["error_code"] == errorCode
    ensures fields["error_type"] == errorType
  {
    assert RPC_TAG[0] == '_' && "success"[0] == 's' && "result"[0] == 'r' && "message"[0] == 'm';
    assert "error_type"[6] == 't' && "error_code"[6] == 'c' && "error_type"[0] == "error_code"[0] == 'e';
    map[RPC_TAG := JBool(true),
        "success" := success,
        "result" := result,
        "message" := message,
        "error_type" := errorType,
        "error_code" := errorCode]
  }

  /** dct.get(tag) is True: only the boolean true counts, not another truthy value. */
  predicate Tagged(dct: map<string, Value>, tag: string) {
    tag in dct && dct[tag] == Bool(true)
  }

  function Get(dct: map<string, Value>, key: string): Value {
    if key in dct then dct[key] else Null
  }

  /** The error type of a tagged object; None when the lookup by name raises. */
  function TypeField(dct: map<string, Value>): Option<ErrorType> {
    if "error_type" !in dct then Some(NONE)
    else if dct["error_type"].Str? then NamedType(dct["error_type"].text)
    else None
  }

  /** b64decode takes text, or bytes read as ASCII text. */
  function BytesField(data: Value): Option<Value> {
    var text := match data
      case Str(s) => Some(s)
      case Bytes(d) => Some(seq(|d|, i requires 0 <= i < |d| => d[i] as char))
      case _ => None;
    if text.None? then None
    else if Base64.Decode(text.value).None? then None
    else Some(Bytes(Base64.Decode(text.value).value))
  }

  /** Serializer._object_hook; None when it raises. */
  function Hook(dct: map<string, Value>): Option<Value> {
    if Tagged(dct, RPC_TAG) then
      if TypeField(dct).None? || "success" !in dct then None
      else Some(Return(RpcReturn(dct["success"], Get(dct, "result"), Get(dct, "message"),
                                 TypeField(dct).value, Get(dct, "error_code"))))
    else if Tagged(dct, BYTES_TAG) then
      if "data" !in dct then None else BytesField(dct["data"])
    else Some(Dict(dct))
  }

  /** Serializer.loads: the hook sees every object after its members; None when it raises. */
  function Loads(j: Json): Option<Value>
    decreases j, 1
  {
    match j
    case JNull => Some(Null)
    case JBool(b) => Some(Bool(b))
    case JNum(n) => Some(Num(n))
    case JStr(s) => Some(Str(s))
    case JArr(_) => var items := LoadsItems(j); if items.None? then None else Some(List(items.value))
    case JObj(_) => var dct := LoadsMembers(j); if dct.None? then None else Hook(dct.value)
  }

  function LoadsItems(j: Json): (r: Option<seq<Value>>)
    requires j.JArr?
    ensures r.Some? <==> forall i | 0 <= i < |j.items| :: Loads(j.items[i]).Some?
    ensures r.Some? ==> |r.value| == |j.items|
    ensures r.Some? ==> forall i | 0 <= i < |j.items| :: Loads(j.items[i]) == Some(r.value[i])
    decreases j, 0
  {
    if exists i | 0 <= i < |j.items| :: Loads(j.items[i]).None? then None
    else Some(seq(|j.items|, i requires 0 <= i < |j.items| => Loads(j.items[i]).value))
  }

  function LoadsMembers(j: Json): (r: Option<map<string, Value>>)
    requires j.JObj?
    ensures r.Some? <==> forall k | k in j.fields :: Loads(j.fields[k]).Some?
    ensures r.Some? ==> r.value.Keys == j.fields.Keys
    ensures r.Some? ==> forall k | k in j.fields :: Loads(j.fields[k]) == Some(r.value[k])
    decreases j, 0
  {
    if exists k | k in j.fields :: Loads(j.fields[k]).None? then None
    else Some(map k | k in j.fields :: Loads(j.fields[k]).value)
  }

  /** No mapping of the user carries one of the two tags set to true, at any depth. */
  ghost predicate Untagged(v: Value) {
    match v
    case List(items) => forall i | 0 <= i < |items| :: Untagged(items[i])
    case Dict(m) =>
      && !Tagged(m, RPC_TAG)
      && !Tagged(m, BYTES_TAG)
      && forall k | k in m :: Untagged(m[k])
    case Return(r) =>
      Untagged(r.success) && Untagged(r.result) && Untagged(r.message) && Untagged(r.errorCode)
    case _ => true
  }

  /**
    A value survives the bus exactly when no user mapping carries a true tag: what is loaded is
    what was dumped, and a value with such a mapping never comes back as itself.
   */
  lemma {:induction false} RoundTrip(v: Value)
    ensures Loads(Dumps(v)) == Some(v) <==> Untagged(v)
    decreases v, 1
  {
    match v
    case Null =>
    case Bool(_) =>
    case Num(_) =>
    case Str(_) =>
    case Bytes(d) =>
      RoundTripBytes(d);
    case List(_) =>
      RoundTripList(v);
    case Dict(_) =>
      RoundTripDict(v);
    case Return(_) =>
      RoundTripReturn(v);
  }

  lemma RoundTripBytes(d: seq<Base64.Byte>)
    ensures Loads(Dumps(Bytes(d))) == Some(Bytes(d))
  {
    Base64.RoundTrip(d);
    assert RPC_TAG[2] != BYTES_TAG[2] && RPC_TAG[0] == BYTES_TAG[0] == '_' && "data"[0] == 'd';
    var j := Dumps(Bytes(d));
    assert Loads(j.fields[BYTES_TAG]) == Some(Bool(true));
    assert Loads(j.fields["data"]) == Some(Str(Base64.Encode(d)));
    assert LoadsMembers(j).value[BYTES_TAG] == Bool(true);
  }

  lemma {:induction false} RoundTripList(v: Value)
    requires v.List?
    ensures Loads(Dumps(v)) == Some(v) <==> Untagged(v)
    decreases v, 0
  {
    var items, j := v.items, Dumps(v);
    forall i | 0 <= i < |items|
      ensures j.items[i] == Dumps(items[i])
      ensures Loads(j.items[i]) == Some(items[i]) <==> Untagged(items[i])
    {
      RoundTrip(items[i]);
    }
    if Untagged(v) {
      assert LoadsItems(j).value == items;
    }
  }

  lemma {:induction false} RoundTripDict(v: Value)
    requires v.Dict?
    ensures Loads(Dumps(v)) == Some(v) <==> Untagged(v)
    decreases v, 0
  {
    hide Hook, Base64.Encode, Base64.Decode;
    var m, j := v.fields, Dumps(v);
    forall k | k in m
      ensures j.fields[k] == Dumps(m[k]) && (Loads(j.fields[k]) == Some(m[k]) <==> Untagged(m[k]))
    {
      RoundTrip(m[k]);
    }
    var dct := LoadsMembers(j);
    if dct.Some? {
      HookMapping(dct.value, m);
      assert dct.value == m <==> forall k | k in m :: Untagged(m[k]) by {
        if forall k | k in m :: Untagged(m[k]) {
        } else {
          var k :| k in m && !Untagged(m[k]);
          assert dct.value[k] != m[k];
        }
      }
    }
  }

  /** The hook returns a mapping only for the untagged mapping it was given. */
  lemma HookMapping(dct: map<string, Value>, m: map<string, Value>)
    ensures Hook(dct) == Some(Dict(m)) <==> dct == m && !Tagged(m, RPC_TAG) && !Tagged(m, BYTES_TAG)
  {
  }

  lemma {:induction false} RoundTripReturn(v: Value)
    requires v.Return?
    ensures Loads(Dumps(v)) == Some(v) <==> Untagged(v)
    decreases v, 0
  {
    hide Loads, Dumps;
    var r := v.ret;
    assert v == Return(r);
    LoadsReturn(r);
    RoundTrip(r.success);
    RoundTrip(r.result);
    RoundTrip(r.message);
    RoundTrip(r.errorCode);
  }

  /** An RpcReturn on the wire is loaded field by field. */
  lemma LoadsReturn(r: RpcReturn)
    ensures var j := Dumps(Return(r));
            var success, result := Loads(Dumps(r.success)), Loads(Dumps(r.result));
            var message, code := Loads(Dumps(r.message)), Loads(Dumps(r.errorCode));
            Loads(j) == if success.None? || result.None? || message.None? || code.None? then None
                        else Some(Return(RpcReturn(success.value, result.value, message.value,
                                                   r.errorType, code.value)))
  {
    hide Hook, NameOf, Base64.Encode, Base64.Decode;
    var j := Dumps(Return(r));
    assert j.fields["success"] == Dumps(r.success) && j.fields["result"] == Dumps(r.result);
    assert j.fields["message"] == Dumps(r.message) && j.fields["error_code"] == Dumps(r.errorCode);
    assert Loads(j.fields[RPC_TAG]) == Some(Bool(true));
    assert Loads(j.fields["error_type"]) == Some(Str(NameOf(r.errorType)));
    var dct := LoadsMembers(j);
    if dct.Some? {
      assert dct.value[RPC_TAG] == Bool(true);
      ReturnHook(r, dct.value);
    }
  }

  lemma ReturnHook(r: RpcReturn, dct: map<string, Value>)
    requires Tagged(dct, RPC_TAG)
    requires dct.Keys >= {"success", "result", "message", "error_type", "error_code"}
    requires dct["error_type"] == Str(NameOf(r.errorType))
    ensures Hook(dct) == Some(Return(RpcReturn(dct["success"], dct["result"], dct["message"],
                                               r.errorType, dct["error_code"])))
  {
    NameNamed(r.errorType);
  }

  lemma NameNamed(e: ErrorType)
    ensures NamedType(NameOf(e)) == Some(e)
  {
    assert "NONE"[0] == 'N' && "CLIENT"[0] == 'C' && "SERVER"[0] == 'S';
  }

  /** A message body: absent when its bytes are no JSON text. */
  type Body = Option<Json>

  /** Serializer.loads on a body; None when it raises. */
  function Read(body: Body): Option<Value> {
    if body.None? then None else Loads(body.value)
  }

  /** json.loads without the hook: the untagged tree that list and replay of failed messages read. */
  function PlainLoads(j: Json): Value {
    match j
    case JNull => Null
    case JBool(b) => Bool(b)
    case JNum(n) => Num(n)
    case JStr(s) => Str(s)
    case JArr(items) => List(seq(|items|, i requires 0 <= i < |items| => PlainLoads(items[i])))
    case JObj(m) => Dict(map k | k in m :: PlainLoads(m[k]))
  }

  /** A replayed body is the original body, so its tags decode as they did the first time. */
  lemma {:induction false} ReplayedBodySame(j: Json)
    ensures Dumps(PlainLoads(j)) == j
  {
    match j
    case JNull =>
    case JBool(_) =>
    case JNum(_) =>
    case JStr(_) =>
    case JArr(items) =>
      forall i | 0 <= i < |items| ensures Dumps(PlainLoads(items[i])) == items[i] {
        ReplayedBodySame(items[i]);
      }
      assert Dumps(PlainLoads(j)).items == items;
    case JObj(m) =>
      forall k | k in m ensures Dumps(PlainLoads(m[k])) == m[k] {
        ReplayedBodySame(m[k]);
      }
      assert Dumps(PlainLoads(j)).fields == m;
  }
}
