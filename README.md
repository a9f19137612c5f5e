# GELF appender for log4php, modelled in Dafny

`LoggerAppenderGelf` is a log4php appender. For each logging event it builds a
GELF 1.1 document and sends it to a Graylog server over TCP. This model covers
three parts of it:

- **The message builder.** It truncates the short message to 250 bytes and
  builds the field list: `version`, `host`, `short_message`, `full_message`,
  `timestamp`, `level`, `facility`, `_application` and `_logger`. It then adds
  `_client_ip` and `_logged_user` from the mapped diagnostic context (MDC)
  when those values are truthy in PHP's sense.
- **The severity mapping.** This maps log4php level codes to the numeric
  severities of section 6.2.1 of RFC 5424.
- **The connection state machine.** This covers lazy and eager connection,
  framing each JSON document with one NUL byte, a single reconnect after a
  failed or short write, and a `close` that can be called any number of times.

Modules:

- `Octets` (`octets.dfy`): PHP strings as byte sequences.
- `Levels` (`levels.dfy`): `mapLevel`, with the RFC 5424 severities as its
  reference definition.
- `PhpCast` (`php_cast.dfy`): PHP's `(int)` cast of a string, which `setPort`
  applies.
- `GelfMessage` (`gelf_message.dfy`): the message builder. The MDC is an
  explicit `map<string, Bytes>`.
- `Framing` (`framing.dfy`): NUL framing. Its partner is a receiver that
  splits the stream on NUL.
- `GelfAppender` (`appender.dfy`): the appender class.

The appender class keeps the source's fields (`host`, `port`, `facility`,
`application`, `$socket`, `isConnected`). The socket calls are inputs:

- what `stream_socket_client` returned: a stream handle, or errno and errstr;
- what `fwrite` returned: false, or a byte count.

What the network would have seen is recorded in ghost logs:

- the endpoints a connection was attempted to, refused ones included;
- the frames handed to `fwrite`;
- the warnings raised;
- the stream handles closed.

The class invariant is that `isConnected` holds exactly when the appender
holds an open stream.

Facts about the code that the model keeps:

- The truncated short message keeps 247 bytes before `...`, 250 in all
  (LoggerAppenderGelf.php:95-96).
- Lengths are in bytes, because `strlen` and `substr` count bytes. They are
  not characters.
- An enrichment field is left out not only when the MDC has no value, but
  also when the value is `''` or `'0'`. This is because the code tests PHP
  truthiness, and `LoggerMDC::get` returns `''` for a missing key.
- Unknown levels map to Alert (1), the most severe code after Emergency. This
  applies to TRACE, ALL and OFF as well. So the mapping does not preserve
  order outside the five named levels (`Levels.FallbackOutranksFatal`).

## Model

| member | source | states |
|---|---|---|
| `Levels.MapLevel` | src/main/php/appenders/LoggerAppenderGelf.php:149-158 | FATAL gives 2, ERROR 3, WARN 4, INFO 6 and DEBUG 7. Every other code gives 1, and each of these holds in both directions. The result is always one of {1,2,3,4,6,7}, and it is the RFC 5424 code of the severity named in the source comments. |
| `Levels.MapLevelMonotone` | src/main/php/appenders/LoggerAppenderGelf.php:151-156 | Over the five named levels, a more severe log4php level maps to a smaller, more severe syslog code, in both directions. |
| `Levels.FallbackOutranksFatal` | src/main/php/appenders/LoggerAppenderGelf.php:157 | Every level outside the five named ones, TRACE, ALL and OFF included, falls back to Alert, which ranks above FATAL's Critical. |
| `PhpCast.IntCast` | src/main/php/appenders/LoggerAppenderGelf.php:162 | A port string that contains no digit casts to 0. |
| `PhpCast.CastLeadingNumber` | src/main/php/appenders/LoggerAppenderGelf.php:162 | Take leading whitespace, then the decimal text of any integer, then anything that does not start with a digit. This casts back to that integer, so the cast inverts decimal printing. |
| `GelfMessage.ShortMessage` | src/main/php/appenders/LoggerAppenderGelf.php:92-97 | The short message is at most 250 bytes. It equals the rendered text exactly when that text is at most 250 bytes. Otherwise it is 250 bytes: the first 247 bytes of the text, then `...`. |
| `GelfMessage.Build` | src/main/php/appenders/LoggerAppenderGelf.php:99-125 | The message is the nine required fields in the source's order, plus one field for each truthy context value, with no key twice. What each field holds is stated by `GelfMessage.RequiredValues` and `GelfMessage.EnrichmentValues`, and the set of keys by `GelfMessage.MessageShape`. |
| `GelfMessage.MessageShape` | src/main/php/appenders/LoggerAppenderGelf.php:99-125 | The message has 9 to 11 fields. No key appears twice, and every key is one of the eleven the source writes. |
| `GelfMessage.RequiredValues` | src/main/php/appenders/LoggerAppenderGelf.php:92-109 | `version` is `1.1` and `full_message` is the untruncated rendered text. `short_message` is the truncation and `level` is the mapped level. `facility`, `_application`, `_logger`, `host` and `timestamp` carry the configuration, the event's logger name and the environment's values. |
| `GelfMessage.EnrichmentValues` | src/main/php/appenders/LoggerAppenderGelf.php:113-125 | `_client_ip` and `_logged_user` are present exactly when the context holds a truthy value under `client_ip` or `logged_user`, and then carry that value unchanged. |
| `GelfMessage.LongErrorExample` | src/main/php/appenders/LoggerAppenderGelf.php:92-125 | Take a 300-byte ERROR event with an empty context. The result has level 3, a short message of 247 bytes plus `...`, the full 300 bytes as full message, and no enrichment fields. |
| `Framing.Frame` | src/main/php/appenders/LoggerAppenderGelf.php:127-130 | The frame is the JSON text followed by one NUL byte, so it is one byte longer. |
| `Framing.DeframeStream` | src/main/php/appenders/LoggerAppenderGelf.php:127-132 | Frame NUL-free documents and write them back to back, with unfinished bytes after them. A receiver that splits on NUL gets back exactly those documents. |
| `Framing.FrameRoundTrip` | src/main/php/appenders/LoggerAppenderGelf.php:129-130 | A single NUL-free document, framed, is received as that document. |
| `Framing.PartialFrameDeliversNothing` | src/main/php/appenders/LoggerAppenderGelf.php:132-134 | A write that stops before the terminator gives the receiver no document. This is why a short write counts as a fault. |
| `GelfAppender.LoggerAppenderGelf.constructor` | src/main/php/appenders/LoggerAppenderGelf.php:45-51 | The defaults are host 127.0.0.1, port 12201, facility `log4php` and application `myApp`. No stream is held and the appender is not connected. |
| `GelfAppender.LoggerAppenderGelf.ActivateOptions` | src/main/php/appenders/LoggerAppenderGelf.php:53-55 | Activation is exactly one connect. |
| `GelfAppender.LoggerAppenderGelf.Connect` | src/main/php/appenders/LoggerAppenderGelf.php:57-80 | It first releases any live stream, then makes one attempt at the endpoint configured now. It is connected exactly when the stream opened. Otherwise it adds one warning that names the endpoint, errno and errstr. |
| `GelfAppender.LoggerAppenderGelf.Append` | src/main/php/appenders/LoggerAppenderGelf.php:82-138 | When disconnected, it makes one connect attempt and drops the event if that fails. Otherwise it writes the frame of the encoded built message exactly once. On a failed or short write it adds one warning and makes one reconnect, and it never writes the frame again. The new socket, flag and logs are stated in every case. |
| `GelfAppender.LoggerAppenderGelf.Close` | src/main/php/appenders/LoggerAppenderGelf.php:140-147 | Afterwards the appender is not connected. Only a live stream is closed. Closing an appender that is not connected changes nothing, so `close` is idempotent. |
| `GelfAppender.LoggerAppenderGelf.SetHost` | src/main/php/appenders/LoggerAppenderGelf.php:161 | Only the host changes. The connection is kept, and the new host is used at the next connect. |
| `GelfAppender.LoggerAppenderGelf.SetPort` | src/main/php/appenders/LoggerAppenderGelf.php:162 | Only the port changes, and it becomes the `(int)` cast of the given text. |
| `GelfAppender.LoggerAppenderGelf.SetFacility` | src/main/php/appenders/LoggerAppenderGelf.php:163 | Only the facility changes. |
| `GelfAppender.LoggerAppenderGelf.SetApplication` | src/main/php/appenders/LoggerAppenderGelf.php:164 | Only the application name changes. |
| `GelfAppender.CloseThenAppend` | src/main/php/appenders/LoggerAppenderGelf.php:84-90 | After `close`, an `append` first makes exactly one connect attempt, at the endpoint configured before the call, and the configuration is unchanged. If that attempt succeeds, it writes the event's frame once. A second attempt follows only a failed or short write. |

## Left out

- Real networking is not modelled: `stream_socket_client`, `stream_set_timeout`, `fwrite`, `fclose` and `is_resource`. Their results are inputs, and the two-second timeouts are not modelled.
- `json_encode` is a parameter `encode: Message -> Bytes`. JSON text and escaping are not modelled. If encoding fails, PHP's `false . "\0"` is a lone NUL byte, which is `encode` returning the empty string. The framing lemmas need NUL-free documents, which `json_encode` provides by escaping control characters.
- `gethostname()` and `microtime(true)` are inputs. The float timestamp is a `real`, with no rounding.
- Warnings are kept as their parts (endpoint, errno, errstr), not as the formatted text. log4php's `warn()` reporting path is not part of this model.
- The MDC holds strings only. PHP truthiness of other value types is not modelled. LoggerMDC.php is not part of this model.
- LoggerLevel.php is not part of this model. The level codes are log4php's constants, written into `Levels`.
- `PhpCast.IntCast` does not model exponent forms (`"1e3"`), overflow beyond PHP's integer range, or `setPort` receiving a non-string value.
- Concurrent calls on one appender are not modelled. The source has no locking and assumes serialized access.
- The HTTP transport, the textual severity scale and the synthetic "Log <severity>" short message belong to other appender variants. None of them is in this source file.
- The configuration XML in the class comment is host-framework wiring, not logic.
