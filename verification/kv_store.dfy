/** The key-value namespace the relay bot keeps its state in, seen as an
    abstract map from string keys to the JSON values that
    `get(key, { type: "json" })` decodes. Three key families live in it:
    `msg-map-<message id>` (forwarded message to visitor chat),
    `msg-map-first-<chat id>` (visitor already announced) and
    `isblocked-<chat id>` (block flag). */
module KvStore {
  import opened Wrappers
  import opened JsStrings

  /** A decoded JSON value as it can come out of the store or the
      configuration. */
  datatype JsValue = Bool(b: bool) | Num(n: int) | Str(s: string)

  type Store = map<string, JsValue>

  /** A read: `None` is the `null` returned for a key that was never written. */
  function Get(store: Store, key: string): Option<JsValue> {
    if key in store then Some(store[key]) else None
  }

  /** The falsy values of ECMAScript ToBoolean that a decoded value can be:
      `null`, `false`, `0` and `""`. */
  predicate Falsy(v: Option<JsValue>) {
    v == None || v == Some(Bool(false)) || v == Some(Num(0)) || v == Some(Str(""))
  }

  /** JavaScript truthiness of a value read from the store. */
  predicate Truthy(v: Option<JsValue>)
    ensures Truthy(v) <==> !Falsy(v)
  {
    match v
    case None => false
    case Some(Bool(b)) => b
    case Some(Num(n)) => n != 0
    case Some(Str(s)) => s != ""
  }

  /** The string a value turns into under `'prefix' + value` or inside a
      template literal; `null` becomes `"null"`. */
  function ToJsString(v: Option<JsValue>): (r: string)
    ensures v == None ==> r == "null"
    ensures v.Some? && v.value.Num? ==> |r| >= 1 && r != "null" && (r[0] == '-' <==> v.value.n < 0)
    ensures v.Some? && v.value.Bool? ==> r == (if v.value.b then "true" else "false")
    ensures v.Some? && v.value.Str? ==> r == v.value.s
  {
    match v
    case None => "null"
    case Some(Bool(b)) => if b then "true" else "false"
    case Some(Num(n)) => NumberToString(n)
    case Some(Str(s)) => s
  }

  /** Numbers, the only values the handler stores as mappings, render to
      distinct strings. */
  lemma ToJsStringNumInjective(a: int, b: int)
    ensures ToJsString(Some(Num(a))) == ToJsString(Some(Num(b))) ==> a == b
  {
    NumberToStringInjective(a, b);
  }

  function MapKey(messageId: int): string {
    "msg-map-" + NumberToString(messageId)
  }

  function FirstKey(chatId: int): string {
    "msg-map-first-" + NumberToString(chatId)
  }

  /** The block flag key for an id already turned into a string. */
  function BlockKey(id: string): string {
    "isblocked-" + id
  }

  /** The three key families never collide: a mapping key continues with a
      digit or `-` where a first-contact key continues with `f`, and block
      keys start with another letter. */
  lemma KeyFamiliesDisjoint(messageId: int, chatId: int, id: string)
    ensures MapKey(messageId) != FirstKey(chatId)
    ensures MapKey(messageId) != BlockKey(id)
    ensures FirstKey(chatId) != BlockKey(id)
  {
    assert MapKey(messageId)[8] == NumberToString(messageId)[0];
    assert FirstKey(chatId)[8] == 'f';
    assert MapKey(messageId)[0] == 'm' && FirstKey(chatId)[0] == 'm' && BlockKey(id)[0] == 'i';
  }

  /** Distinct message ids have distinct mapping keys. */
  lemma MapKeyInjective(a: int, b: int)
    ensures MapKey(a) == MapKey(b) ==> a == b
  {
    if MapKey(a) == MapKey(b) {
      assert MapKey(a)[8..] == NumberToString(a);
      assert MapKey(b)[8..] == NumberToString(b);
      NumberToStringInjective(a, b);
    }
  }

  /** Distinct chat ids have distinct first-contact keys. */
  lemma FirstKeyInjective(a: int, b: int)
    ensures FirstKey(a) == FirstKey(b) ==> a == b
  {
    if FirstKey(a) == FirstKey(b) {
      assert FirstKey(a)[14..] == NumberToString(a);
      assert FirstKey(b)[14..] == NumberToString(b);
      NumberToStringInjective(a, b);
    }
  }
}
