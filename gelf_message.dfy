/**
 The GELF 1.1 document the appender builds for one log event: an ordered list
 of fields, as PHP's associative array keeps them and `json_encode` writes them.
 The diagnostic context (log4php's MDC) is an explicit map instead of a global
 store.
 */
module GelfMessage {
  import opened Octets
  import Levels

  datatype Option<T> = None | Some(value: T)

  /** What a field can hold: a string, the integer level, or the float timestamp. */
  datatype FieldValue = Text(text: Bytes) | Number(number: int) | Float(seconds: real)

  /**
   A member of the message. Keys are the ASCII literals the appender writes,
   kept as Dafny strings; every PHP string value is `Bytes`.
   */
  datatype Field = Field(key: string, value: FieldValue)

  type Message = seq<Field>

  /** The parts of a log4php logging event the appender reads. */
  datatype Event = Event(rendered: Bytes, level: int, loggerName: Bytes)

  /** What the appender asks of its environment: `gethostname()` and `microtime(true)`. */
  datatype Env = Env(hostname: Bytes, now: real)

  /** The mapped diagnostic context. */
  type Context = map<string, Bytes>

  const MAX_SHORT: nat := 250
  const KEEP: nat := 247
  const ELLIPSIS: Bytes := Ascii("...")
  const VERSION: Bytes := Ascii("1.1")

  /** `LoggerMDC::get`: the value under `key`, or the empty string when there is none. */
  function MdcGet(ctx: Context, key: string): Bytes {
    if key in ctx then ctx[key] else []
  }

  /** PHP truthiness of a string: everything except '' and '0'. */
  predicate Truthy(v: Bytes) {
    v != [] && v != Ascii("0")
  }

  /**
   The short message: the rendered text itself when it fits in 250 bytes,
   otherwise its first 247 bytes followed by '...', exactly 250 bytes.
   */
  function ShortMessage(full: Bytes): (short: Bytes)
    ensures |short| <= MAX_SHORT
    ensures short == full <==> |full| <= MAX_SHORT
    ensures |full| > MAX_SHORT ==>
      |short| == MAX_SHORT && short[..KEEP] == full[..KEEP] && short[KEEP..] == ELLIPSIS
  {
    if |full| > MAX_SHORT then full[..KEEP] + ELLIPSIS else full
  }

  /** The nine fields every message carries, in the order the source lists them. */
  function RequiredFields(e: Event, env: Env, facility: Bytes, application: Bytes): Message {
    [ Field("version", Text(VERSION)),
      Field("host", Text(env.hostname)),
      Field("short_message", Text(ShortMessage(e.rendered))),
      Field("full_message", Text(e.rendered)),
      Field("timestamp", Float(env.now)),
      Field("level", Number(Levels.MapLevel(e.level))),
      Field("facility", Text(facility)),
      Field("_application", Text(application)),
      Field("_logger", Text(e.loggerName)) ]
  }

  /** An enrichment field, present only when the context value is truthy. */
  function Enrichment(key: string, v: Bytes): Message {
    if Truthy(v) then [Field(key, Text(v))] else []
  }

  /**
   The message `append` hands to `json_encode`: the nine required fields in
   the source's order, then `_client_ip` and `_logged_user` each only when the
   context value is truthy, no key twice.
   */
  function Build(e: Event, ctx: Context, env: Env, facility: Bytes, application: Bytes): (m: Message)
    ensures |m| == 9 + (if Truthy(MdcGet(ctx, "client_ip")) then 1 else 0)
                     + (if Truthy(MdcGet(ctx, "logged_user")) then 1 else 0)
    ensures m[..9] == RequiredFields(e, env, facility, application)
    ensures DistinctKeys(m)
  {
    RequiredFields(e, env, facility, application)
    + Enrichment("_client_ip", MdcGet(ctx, "client_ip"))
    + Enrichment("_logged_user", MdcGet(ctx, "logged_user"))
  }

  /** The value under `key`: the first field with that key, as a JSON reader sees it. */
  function Get(m: Message, key: string): (v: Option<FieldValue>)
    ensures v.None? <==> forall i | 0 <= i < |m| :: m[i].key != key
  {
    if m == [] then None
    else if m[0].key == key then Some(m[0].value)
    else Get(m[1..], key)
  }

  /** No key occurs twice, so the JSON object has no duplicate members. */
  predicate DistinctKeys(m: Message) {
    forall i, j | 0 <= i < j < |m| :: m[i].key != m[j].key
  }

  lemma {:induction false} GetAt(m: Message, i: nat)
    requires DistinctKeys(m) && i < |m|
    ensures Get(m, m[i].key) == Some(m[i].value)
  {
    if i > 0 {
      GetAt(m[1..], i - 1);
    }
  }

  const KEYS: set<string> := {
    "version", "host", "short_message", "full_message", "timestamp", "level",
    "facility", "_application", "_logger", "_client_ip", "_logged_user" }

  /**
   The message has nine required fields and at most the two enrichment fields,
   no key twice and no key outside those eleven.
   */
  lemma MessageShape(e: Event, ctx: Context, env: Env, facility: Bytes, application: Bytes)
    ensures var m := Build(e, ctx, env, facility, application);
      && DistinctKeys(m)
      && 9 <= |m| <= 11
      && forall i | 0 <= i < |m| :: m[i].key in KEYS
  {
  }

  /**
   Every required field holds what the source puts there: version '1.1', the
   short message, the untruncated rendered message as full_message, the mapped
   level, the configured facility and application, the logger name, and the
   host name and time the environment gave.
   */
  lemma RequiredValues(e: Event, ctx: Context, env: Env, facility: Bytes, application: Bytes)
    ensures var m := Build(e, ctx, env, facility, application);
      && Get(m, "version") == Some(Text(VERSION))
      && Get(m, "host") == Some(Text(env.hostname))
      && Get(m, "short_message") == Some(Text(ShortMessage(e.rendered)))
      && Get(m, "full_message") == Some(Text(e.rendered))
      && Get(m, "timestamp") == Some(Float(env.now))
      && Get(m, "level") == Some(Number(Levels.MapLevel(e.level)))
      && Get(m, "facility") == Some(Text(facility))
      && Get(m, "_application") == Some(Text(application))
      && Get(m, "_logger") == Some(Text(e.loggerName))
  {
    var m := Build(e, ctx, env, facility, application);
    MessageShape(e, ctx, env, facility, application);
    GetAt(m, 0);
    GetAt(m, 1);
    GetAt(m, 2);
    GetAt(m, 3);
    GetAt(m, 4);
    GetAt(m, 5);
    GetAt(m, 6);
    GetAt(m, 7);
    GetAt(m, 8);
  }

  /**
   `_client_ip` and `_logged_user` are present exactly when the context holds a
   truthy value under `client_ip` and `logged_user`, and then carry that value
   unchanged; an absent key, '' and '0' all leave the field out.
   */
  lemma EnrichmentValues(e: Event, ctx: Context, env: Env, facility: Bytes, application: Bytes)
    ensures var m := Build(e, ctx, env, facility, application);
      && (Get(m, "_client_ip").Some? <==> "client_ip" in ctx && Truthy(ctx["client_ip"]))
      && (Get(m, "_client_ip").Some? ==> Get(m, "_client_ip") == Some(Text(ctx["client_ip"])))
      && (Get(m, "_logged_user").Some? <==> "logged_user" in ctx && Truthy(ctx["logged_user"]))
      && (Get(m, "_logged_user").Some? ==> Get(m, "_logged_user") == Some(Text(ctx["logged_user"])))
  {
    var m := Build(e, ctx, env, facility, application);
    var r := RequiredFields(e, env, facility, application);
    var ip := MdcGet(ctx, "client_ip");
    var user := MdcGet(ctx, "logged_user");
    var a := Enrichment("_client_ip", ip);
    var b := Enrichment("_logged_user", user);
    assert m == r + a + b;
    assert forall i | 0 <= i < |r| :: r[i].key != "_client_ip" && r[i].key != "_logged_user";
    MessageShape(e, ctx, env, facility, application);
    if Truthy(ip) {
      assert m[9] == Field("_client_ip", Text(ip));
      GetAt(m, 9);
    } else {
      assert forall i | 0 <= i < |m| :: m[i].key != "_client_ip" by {
        forall i | 0 <= i < |m| ensures m[i].key != "_client_ip" {
          if i < |r| { assert m[i] == r[i]; } else { assert m[i] == b[i - |r|]; }
        }
      }
    }
    if Truthy(user) {
      assert m[|m| - 1] == Field("_logged_user", Text(user));
      GetAt(m, |m| - 1);
    } else {
      assert forall i | 0 <= i < |m| :: m[i].key != "_logged_user" by {
        forall i | 0 <= i < |m| ensures m[i].key != "_logged_user" {
          if i < |r| { assert m[i] == r[i]; } else { assert m[i] == a[i - |r|]; }
        }
      }
    }
  }

  /**
   A 300-byte ERROR event with an empty context: level 3, a short message of
   the first 247 bytes and '...', the whole text as full message, and neither
   enrichment field.
   */
  lemma LongErrorExample(env: Env, facility: Bytes, application: Bytes)
    ensures var text := seq(300, _ => 65 as byte);
      var m := Build(Event(text, Levels.ERROR, Ascii("main")), map[], env, facility, application);
      && Get(m, "level") == Some(Number(3))
      && Get(m, "short_message") == Some(Text(text[..247] + ELLIPSIS))
      && Get(m, "full_message") == Some(Text(text))
      && Get(m, "_client_ip") == None
      && Get(m, "_logged_user") == None
  {
    var text := seq(300, _ => 65 as byte);
    var e := Event(text, Levels.ERROR, Ascii("main"));
    RequiredValues(e, map[], env, facility, application);
    EnrichmentValues(e, map[], env, facility, application);
  }
}
